/**
 * delete_unused_datasets_users: for every configured datasets database,
 * the temporary `user_…` logins that no live application instance uses
 * lose their database and schema privileges and are dropped.
 *
 * SQL is a list of abstract statements; whether the server refuses a
 * statement is the parameter `fails`. The catalogue queries are their
 * result rows, in the order the queries' ORDER BY gives them.
 */
module ApplicationsSweep {
  import opened AppModels
  import Collections

  /**
   * A pg_user row: its name and whether it never expires. `valuntil !=
   * 'infinity'` skips both a login valid until 'infinity' and one whose
   * valuntil is NULL (the comparison is then NULL), so both are `validForever`.
   */
  datatype PgUser = PgUser(usename: string, validForever: bool)

  /** One ApplicationInstanceDbUsers row joined to its instance's state. */
  datatype DbUserRow = DbUserRow(db: string, username: string, state: InstanceState)

  /** One entry of DATABASES_DATA, with what its catalogue returns. */
  datatype DatabaseData = DatabaseData(memorableName: string, name: string, pgUsers: seq<PgUser>, schemaNames: seq<string>)

  /** The seven schema-level revokes, in the order they are issued. */
  datatype RevokeKind =
    | Usage | AllTables | AllSequences | AllFunctions
    | DefaultTables | DefaultSequences | DefaultFunctions

  const RevokeKinds: seq<RevokeKind> :=
    [Usage, AllTables, AllSequences, AllFunctions, DefaultTables, DefaultSequences, DefaultFunctions]

  datatype Stmt =
    | RevokeConnect(db: string, user: string)
    | RevokeAllOnDatabase(db: string, user: string)
    | SchemaRevoke(kind: RevokeKind, schema: string, user: string)
    | DropUser(user: string)

  /**
   * `usename LIKE 'user_%'`: in LIKE the underscore is itself a wildcard,
   * so the filter asks for "user", then any one character, then anything.
   */
  predicate LikeUserPattern(name: string)
  {
    |name| >= 5 && name[..4] == "user"
  }

  predicate Selectable(p: PgUser)
  {
    !p.validForever && LikeUserPattern(p.usename)
  }

  /** The first query: names of expiring `user_…` logins, in catalogue order. */
  function SelectUsenames(pg: seq<PgUser>): (r: seq<string>)
    ensures |r| <= |pg|
    ensures forall k :: 0 <= k < |r| ==> LikeUserPattern(r[k])
    ensures forall p :: p in pg && Selectable(p) ==> p.usename in r
    ensures forall u :: u in r ==> exists p :: p in pg && Selectable(p) && p.usename == u
  {
    if pg == [] then []
    else
      var rest := SelectUsenames(pg[1..]);
      assert forall p :: p in pg[1..] ==> p in pg;
      if Selectable(pg[0]) then [pg[0].usename] + rest else rest
  }

  predicate SystemSchema(s: string)
  {
    s == "pg_catalog" || s == "information_schema"
  }

  /** The second query: schema names, without the two system schemas. */
  function UserSchemas(names: seq<string>): (r: seq<string>)
    ensures forall s :: s in r <==> s in names && !SystemSchema(s)
  {
    if names == [] then []
    else
      var rest := UserSchemas(names[1..]);
      assert forall s :: s in names <==> s == names[0] || s in names[1..];
      if SystemSchema(names[0]) then rest else [names[0]] + rest
  }

  /** Logins attached to a RUNNING or SPAWNING instance of this database. */
  function InUse(rows: set<DbUserRow>, memorableName: string, usenames: seq<string>): (r: set<string>)
    ensures forall u :: u in r <==> (exists w :: w in rows && w.db == memorableName && w.username == u
                                                && u in usenames && (w.state == Running || w.state == Spawning))
  {
    set w | w in rows && w.db == memorableName && w.username in usenames
      && (w.state == Running || w.state == Spawning) :: w.username
  }

  /** The selected names minus those in use, keeping their order. */
  function NotInUse(usenames: seq<string>, inUse: set<string>): (r: seq<string>)
    ensures |r| <= |usenames|
    ensures forall u :: u in r <==> u in usenames && u !in inUse
  {
    if usenames == [] then []
    else
      var rest := NotInUse(usenames[1..], inUse);
      assert forall u :: u in usenames <==> u == usenames[0] || u in usenames[1..];
      if usenames[0] in inUse then rest else [usenames[0]] + rest
  }

  /** Name by name: the first name is kept exactly when it is not in use, ahead of what the rest keeps. */
  lemma NotInUseCons(x: string, rest: seq<string>, inUse: set<string>)
    ensures NotInUse([x] + rest, inUse) == (if x in inUse then [] else [x]) + NotInUse(rest, inUse)
  {
    assert ([x] + rest)[1..] == rest;
  }

  /** The filter keeps order and multiplicity: it distributes over concatenation, so each kept name sits where it sat among the selected ones. */
  lemma {:induction false} NotInUseKeepsOrder(a: seq<string>, b: seq<string>, inUse: set<string>)
    ensures NotInUse(a + b, inUse) == NotInUse(a, inUse) + NotInUse(b, inUse)
  {
    if a == [] {
      assert a + b == b;
    } else {
      var x, rest := a[0], a[1..];
      Collections.HeadTail(a);
      Collections.AppendAssoc([x], rest, b);
      NotInUseKeepsOrder(rest, b, inUse);
      NotInUseCons(x, rest + b, inUse);
      NotInUseCons(x, rest, inUse);
      Collections.AppendAssoc(if x in inUse then [] else [x], NotInUse(rest, inUse), NotInUse(b, inUse));
    }
  }

  /** The seven revokes of one schema for one login. */
  function KindsFor(schema: string, user: string): (r: seq<Stmt>)
    ensures |r| == 7
  {
    seq(7, k requires 0 <= k < 7 => SchemaRevoke(RevokeKinds[k], schema, user))
  }

  /** The schema revokes for one login, schema by schema. */
  function SchemaRevokes(schemas: seq<string>, user: string): (r: seq<Stmt>)
    ensures |r| == 7 * |schemas|
  {
    if schemas == [] then []
    else
      SchemaRevokes(schemas[..|schemas| - 1], user) + KindsFor(schemas[|schemas| - 1], user)
  }

  /**
   * The statements issued for one login. A failing database-level revoke
   * ends that login's turn; a failing schema revoke is ignored.
   */
  function UserAttempts(db: string, user: string, schemas: seq<string>, fails: Stmt -> bool): seq<Stmt>
  {
    if fails(RevokeConnect(db, user)) then [RevokeConnect(db, user)]
    else if fails(RevokeAllOnDatabase(db, user)) then [RevokeConnect(db, user), RevokeAllOnDatabase(db, user)]
    else [RevokeConnect(db, user), RevokeAllOnDatabase(db, user)] + SchemaRevokes(schemas, user) + [DropUser(user)]
  }

  /** Whether the login is gone afterwards. */
  predicate UserDropped(db: string, user: string, fails: Stmt -> bool)
  {
    !fails(RevokeConnect(db, user)) && !fails(RevokeAllOnDatabase(db, user)) && !fails(DropUser(user))
  }

  /** The lists `f` gives for the elements of `xs`, one after another. */
  function ConcatMap<T>(xs: seq<string>, f: string -> seq<T>): seq<T>
  {
    if xs == [] then [] else ConcatMap(xs[..|xs| - 1], f) + f(xs[|xs| - 1])
  }

  lemma {:induction false} ConcatMapAppend<T>(xs: seq<string>, ys: seq<string>, f: string -> seq<T>)
    ensures ConcatMap(xs + ys, f) == ConcatMap(xs, f) + ConcatMap(ys, f)
    decreases |ys|
  {
    if ys == [] {
      assert xs + ys == xs;
    } else {
      var init, last := ys[..|ys| - 1], ys[|ys| - 1];
      ConcatMapAppend(xs, init, f);
      assert (xs + ys)[..|xs + ys| - 1] == xs + init;
      assert ConcatMap(xs + ys, f) == ConcatMap(xs + init, f) + f(last);
      assert ConcatMap(ys, f) == ConcatMap(init, f) + f(last);
    }
  }

  /** Statements issued for the logins, in order. */
  function DatabaseAttempts(db: string, users: seq<string>, schemas: seq<string>, fails: Stmt -> bool): seq<Stmt>
  {
    ConcatMap(users, u => UserAttempts(db, u, schemas, fails))
  }

  /** The logins dropped, in order. */
  function Dropped(db: string, users: seq<string>, fails: Stmt -> bool): (r: seq<string>)
    ensures forall u :: u in r <==> u in users && UserDropped(db, u, fails)
  {
    if users == [] then []
    else
      var init := users[..|users| - 1];
      var last := users[|users| - 1];
      assert forall u :: u in users <==> u in init || u == last;
      Dropped(db, init, fails) + (if UserDropped(db, last, fails) then [last] else [])
  }

  /** What the sweep does to one database. */
  function SweepOf(d: DatabaseData, rows: set<DbUserRow>, fails: Stmt -> bool): (seq<Stmt>, seq<string>)
  {
    var usenames := SelectUsenames(d.pgUsers);
    var users := NotInUse(usenames, InUse(rows, d.memorableName, usenames));
    (DatabaseAttempts(d.name, users, UserSchemas(d.schemaNames), fails), Dropped(d.name, users, fails))
  }

  /** A login attached to a live instance, or one the filter does not select, is never dropped. */
  lemma SweepNeverDropsInUse(d: DatabaseData, rows: set<DbUserRow>, fails: Stmt -> bool, u: string)
    requires u in SweepOf(d, rows, fails).1
    ensures LikeUserPattern(u)
    ensures exists p :: p in d.pgUsers && Selectable(p) && p.usename == u
    ensures forall w :: w in rows && w.db == d.memorableName && w.username == u ==> w.state == Stopped
  {
    var usenames := SelectUsenames(d.pgUsers);
    var inUse := InUse(rows, d.memorableName, usenames);
    assert u in NotInUse(usenames, inUse);
    assert u !in inUse;
  }

  /** The schema revokes of a login name only that login and only the listed schemas. */
  lemma {:induction false} SchemaRevokesTargets(schemas: seq<string>, user: string)
    ensures forall st :: st in SchemaRevokes(schemas, user) ==> st.SchemaRevoke? && st.user == user && st.schema in schemas
  {
    if schemas != [] {
      var init := schemas[..|schemas| - 1];
      SchemaRevokesTargets(init, user);
      assert forall s :: s in init ==> s in schemas;
    }
  }

  /** One login's failure does not change what is issued for the others. */
  lemma AttemptsAppend(db: string, us: seq<string>, vs: seq<string>, schemas: seq<string>, fails: Stmt -> bool)
    ensures DatabaseAttempts(db, us + vs, schemas, fails)
      == DatabaseAttempts(db, us, schemas, fails) + DatabaseAttempts(db, vs, schemas, fails)
  {
    ConcatMapAppend(us, vs, u => UserAttempts(db, u, schemas, fails));
  }

  /** Nor does it change which of the others are dropped. */
  lemma {:induction false} DroppedAppend(db: string, us: seq<string>, vs: seq<string>, fails: Stmt -> bool)
    ensures Dropped(db, us + vs, fails) == Dropped(db, us, fails) + Dropped(db, vs, fails)
    decreases |vs|
  {
    if vs == [] {
      assert us + vs == us;
    } else {
      DroppedAppend(db, us, vs[..|vs| - 1], fails);
      Collections.AppendInitLast(us, vs);
    }
  }

  /**
   * When nothing fails, every login receives the two database revokes,
   * seven revokes per schema and the drop.
   */
  lemma {:induction false} AllSucceedAttempts(db: string, users: seq<string>, schemas: seq<string>, fails: Stmt -> bool)
    requires forall s :: !fails(s)
    ensures |DatabaseAttempts(db, users, schemas, fails)| == |users| * (3 + 7 * |schemas|)
  {
    if users != [] {
      var init := users[..|users| - 1];
      var c := 3 + 7 * |schemas|;
      AllSucceedAttempts(db, init, schemas, fails);
      assert |UserAttempts(db, users[|users| - 1], schemas, fails)| == c;
      MulSucc(|init|, c);
    }
  }

  lemma MulSucc(n: nat, c: int)
    ensures (n + 1) * c == n * c + c
  {
  }

  /** When nothing fails, every login is dropped. */
  lemma {:induction false} AllSucceedDropped(db: string, users: seq<string>, fails: Stmt -> bool)
    requires forall s :: !fails(s)
    ensures Dropped(db, users, fails) == users
  {
    if users != [] {
      var init := users[..|users| - 1];
      AllSucceedDropped(db, init, fails);
      assert users == init + [users[|users| - 1]];
    }
  }

  /** A drop is issued only as a login's last statement, after all its revokes. */
  lemma DropComesLast(db: string, user: string, schemas: seq<string>, fails: Stmt -> bool)
    ensures DropUser(user) in UserAttempts(db, user, schemas, fails) <==>
      !fails(RevokeConnect(db, user)) && !fails(RevokeAllOnDatabase(db, user))
    ensures DropUser(user) in UserAttempts(db, user, schemas, fails) ==>
      UserAttempts(db, user, schemas, fails)
      == [RevokeConnect(db, user), RevokeAllOnDatabase(db, user)] + SchemaRevokes(schemas, user) + [DropUser(user)]
  {
  }

  /** The sweep over one database: one login at a time, schema by schema, revoke by revoke. */
  method SweepDatabase(d: DatabaseData, rows: set<DbUserRow>, fails: Stmt -> bool)
    returns (attempts: seq<Stmt>, dropped: seq<string>)
    ensures (attempts, dropped) == SweepOf(d, rows, fails)
  {
    var usenames := SelectUsenames(d.pgUsers);
    var schemas := UserSchemas(d.schemaNames);
    var users := NotInUse(usenames, InUse(rows, d.memorableName, usenames));
    attempts, dropped := [], [];
    var i := 0;
    while i < |users|
      invariant i <= |users|
      invariant attempts == DatabaseAttempts(d.name, users[..i], schemas, fails)
      invariant dropped == Dropped(d.name, users[..i], fails)
    {
      var u := users[i];
      assert users[..i + 1][..i] == users[..i];
      var mine, ok := SweepUser(d.name, u, schemas, fails);
      attempts := attempts + mine;
      if ok {
        dropped := dropped + [u];
      }
      i := i + 1;
    }
    assert users[..i] == users;
  }

  /** The body of the per-login `try`. */
  method SweepUser(db: string, u: string, schemas: seq<string>, fails: Stmt -> bool) returns (issued: seq<Stmt>, ok: bool)
    ensures issued == UserAttempts(db, u, schemas, fails)
    ensures ok == UserDropped(db, u, fails)
  {
    issued := [RevokeConnect(db, u)];
    if fails(RevokeConnect(db, u)) {
      return issued, false;
    }
    issued := issued + [RevokeAllOnDatabase(db, u)];
    if fails(RevokeAllOnDatabase(db, u)) {
      return issued, false;
    }
    var j := 0;
    while j < |schemas|
      invariant j <= |schemas|
      invariant issued == [RevokeConnect(db, u), RevokeAllOnDatabase(db, u)] + SchemaRevokes(schemas[..j], u)
    {
      assert schemas[..j + 1][..j] == schemas[..j];
      var k := 0;
      while k < |RevokeKinds|
        invariant k <= 7
        invariant issued == [RevokeConnect(db, u), RevokeAllOnDatabase(db, u)]
          + SchemaRevokes(schemas[..j], u) + KindsFor(schemas[j], u)[..k]
      {
        // a refused revoke is logged and the next one is tried
        issued := issued + [SchemaRevoke(RevokeKinds[k], schemas[j], u)];
        assert KindsFor(schemas[j], u)[..k + 1] == KindsFor(schemas[j], u)[..k] + [KindsFor(schemas[j], u)[k]];
        k := k + 1;
      }
      j := j + 1;
    }
    assert schemas[..j] == schemas;
    issued := issued + [DropUser(u)];
    ok := !fails(DropUser(u));
  }

  /** The sweep over all databases: their statements and dropped logins, database after database. */
  function AllSweeps(dbs: seq<DatabaseData>, rows: set<DbUserRow>, fails: Stmt -> bool): (seq<Stmt>, seq<string>)
  {
    if dbs == [] then ([], [])
    else
      var before := AllSweeps(dbs[..|dbs| - 1], rows, fails);
      var last := SweepOf(dbs[|dbs| - 1], rows, fails);
      (before.0 + last.0, before.1 + last.1)
  }

  method DeleteUnusedDatasetsUsers(dbs: seq<DatabaseData>, rows: set<DbUserRow>, fails: Stmt -> bool)
    returns (attempts: seq<Stmt>, dropped: seq<string>)
    ensures (attempts, dropped) == AllSweeps(dbs, rows, fails)
  {
    attempts, dropped := [], [];
    var i := 0;
    while i < |dbs|
      invariant i <= |dbs|
      invariant (attempts, dropped) == AllSweeps(dbs[..i], rows, fails)
    {
      assert dbs[..i + 1][..i] == dbs[..i];
      var a, d := SweepDatabase(dbs[i], rows, fails);
      attempts, dropped := attempts + a, dropped + d;
      i := i + 1;
    }
    assert dbs[..i] == dbs;
  }
}
