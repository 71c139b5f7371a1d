/**
 * The data migration that gives every reference dataset a readable table
 * name: a dataset still on its original table 'refdata__<id>' (or on no
 * table name at all) is moved to 'ref_<slug>' with the slug's hyphens made
 * underscores, its schema version goes up by one, and the database table
 * is renamed. The code swallows the ProgrammingError of a rename the
 * database refuses, evidently meaning to skip that table and carry on;
 * `ReferenceTables` models that intent. As written, on PostgreSQL the
 * refused statement aborts the migration's transaction, leaving the
 * schema editor's savepoint then raises, and the whole migration is
 * rolled back; `RunAsWritten` models that.
 */
module DatasetsMigration {
  import opened Wrappers
  import opened Text

  /** A reference dataset row as the migration reads and saves it. */
  datatype RefRow = RefRow(id: nat, slug: string, tableName: Option<string>, schemaVersion: int)

  /** The name a reference dataset's table was created with. */
  function OriginalName(id: nat): (r: string)
    ensures StartsWith(r, "refdata__") && r[9..] == NatToString(id)
  {
    "refdata__" + NatToString(id)
  }

  /** slug.replace('-', '_'). */
  function Underscored(slug: string): (r: string)
    ensures |r| == |slug|
    ensures forall i :: 0 <= i < |r| ==> r[i] == (if slug[i] == '-' then '_' else slug[i])
  {
    seq(|slug|, i requires 0 <= i < |slug| => if slug[i] == '-' then '_' else slug[i])
  }

  /** The readable table name: 'ref_' and the slug with its hyphens made underscores. */
  function NewName(slug: string): (r: string)
    ensures StartsWith(r, "ref_") && |r| == |slug| + 4
    ensures forall i :: 0 <= i < |r| ==> r[i] != '-'
    ensures forall i :: 0 <= i < |slug| && slug[i] != '-' ==> r[i + 4] == slug[i]
  {
    "ref_" + Underscored(slug)
  }

  /** A new name never is an original one: they differ at their fourth character. */
  lemma NewNameNotOriginal(slug: string, id: nat)
    ensures NewName(slug) != OriginalName(id)
  {
    assert NewName(slug)[3] == '_';
    assert OriginalName(id)[3] == 'd';
  }

  /** Slugs that differ only in '-' against '_' share a table name; other slugs do not. */
  lemma NewNameSeparatesSlugs(a: string, b: string)
    ensures NewName(a) == NewName(b) <==> Underscored(a) == Underscored(b)
  {
    if NewName(a) == NewName(b) {
      assert Underscored(a) == NewName(a)[4..];
      assert Underscored(b) == NewName(b)[4..];
    }
  }

  /** The datasets the migration renames: no table name yet, or still the original one. */
  predicate NeedsRename(r: RefRow)
  {
    r.tableName.None? || r.tableName == Some(OriginalName(r.id))
  }

  /** The row the migration saves: renamed rows get the new name and the next schema version. */
  function Migrated(r: RefRow): (m: RefRow)
    ensures m.id == r.id && m.slug == r.slug
    ensures NeedsRename(r) ==> m.tableName == Some(NewName(r.slug)) && m.schemaVersion == r.schemaVersion + 1
    ensures !NeedsRename(r) ==> m == r
  {
    if NeedsRename(r) then r.(tableName := Some(NewName(r.slug)), schemaVersion := r.schemaVersion + 1) else r
  }

  /** A migrated row needs no further rename: the migration's effect on a row is idempotent. */
  lemma MigratedIdempotent(r: RefRow)
    ensures !NeedsRename(Migrated(r))
    ensures Migrated(Migrated(r)) == Migrated(r)
  {
    NewNameNotOriginal(r.slug, r.id);
  }

  /**
   * alter_db_table on the database's tables: the old table takes the new
   * name when it exists and the new name is free; otherwise the database
   * raises ProgrammingError and no table changes, which is what the
   * intended skip-and-continue leaves behind.
   */
  function AlterTable(tables: set<string>, old_name: string, new_name: string): (r: set<string>)
    requires old_name != new_name
    ensures old_name in tables && new_name !in tables ==> r == tables - {old_name} + {new_name}
    ensures !(old_name in tables && new_name !in tables) ==> r == tables
    ensures |r| == |tables|
  {
    if old_name in tables && new_name !in tables then
      var rest := tables - {old_name};
      assert |rest| == |tables| - 1;
      rest + {new_name}
    else tables
  }

  /** The tables after one row has been visited. */
  function RenameFor(tables: set<string>, r: RefRow): set<string>
  {
    NewNameNotOriginal(r.slug, r.id);
    if NeedsRename(r) then AlterTable(tables, OriginalName(r.id), NewName(r.slug)) else tables
  }

  /** The tables after the rows have been visited in order. */
  function RenameAll(rows: seq<RefRow>, tables: set<string>): (r: set<string>)
    ensures forall t :: t in tables && (forall i :: 0 <= i < |rows| ==> t != OriginalName(rows[i].id)) ==> t in r
  {
    if rows == [] then tables else RenameFor(RenameAll(rows[..|rows| - 1], tables), rows[|rows| - 1])
  }

  /** The progress line written for a renamed table. */
  function Changing(originalName: string, tableName: string): string
  {
    "Changing table \"" + originalName + "\" to \"" + tableName + "\""
  }

  /** The progress line a row gives: one when it is renamed, none otherwise. */
  function RowMessages(r: RefRow): seq<string>
  {
    if NeedsRename(r) then [Changing(OriginalName(r.id), NewName(r.slug))] else []
  }

  /** The progress lines the migration writes, one per renamed row. */
  function Messages(rows: seq<RefRow>): seq<string>
  {
    if rows == [] then [] else Messages(rows[..|rows| - 1]) + RowMessages(rows[|rows| - 1])
  }

  /** One more row visited: its rename and its progress line come after the earlier ones'. */
  lemma VisitNext(rows: seq<RefRow>, i: nat, tables: set<string>)
    requires i < |rows|
    ensures RenameAll(rows[..i + 1], tables) == RenameFor(RenameAll(rows[..i], tables), rows[i])
    ensures Messages(rows[..i + 1]) == Messages(rows[..i]) + RowMessages(rows[i])
  {
    assert rows[..i + 1][..i] == rows[..i];
  }

  /** Renames never create or drop a table: the database keeps as many tables as it had. */
  lemma {:induction false} RenameAllKeepsCount(rows: seq<RefRow>, tables: set<string>)
    ensures |RenameAll(rows, tables)| == |tables|
  {
    if rows != [] {
      RenameAllKeepsCount(rows[..|rows| - 1], tables);
    }
  }

  /** Rows that need no rename leave the tables alone. */
  lemma {:induction false} RenameAllUntouched(rows: seq<RefRow>, tables: set<string>)
    requires forall i :: 0 <= i < |rows| ==> !NeedsRename(rows[i])
    ensures RenameAll(rows, tables) == tables
    ensures Messages(rows) == []
  {
    if rows != [] {
      RenameAllUntouched(rows[..|rows| - 1], tables);
    }
  }

  /** A renamed row whose table existed under the original name, and whose new name was free, now has its table. */
  lemma RenameForMovesTable(tables: set<string>, r: RefRow)
    requires NeedsRename(r) && OriginalName(r.id) in tables && NewName(r.slug) !in tables
    ensures NewName(r.slug) in RenameFor(tables, r) && OriginalName(r.id) !in RenameFor(tables, r)
  {
    NewNameNotOriginal(r.slug, r.id);
  }

  /** A rename the database refuses: the row needs one, but its original table is missing or its new name is taken. */
  predicate Refused(tables: set<string>, r: RefRow)
  {
    NeedsRename(r) && !(OriginalName(r.id) in tables && NewName(r.slug) !in tables)
  }

  /** Under the intended skip-and-continue, a refused rename leaves the tables as they were. */
  lemma RefusedRenameSkipped(tables: set<string>, r: RefRow)
    requires Refused(tables, r)
    ensures RenameFor(tables, r) == tables
  {
    NewNameNotOriginal(r.slug, r.id);
  }

  /**
   * How the migration as written ends on PostgreSQL: committed with the
   * renamed tables (every row then saved migrated), or rolled back, rows
   * and tables as before, with the lines printed up to the refusal.
   */
  datatype MigrationRun = Committed(tables: set<string>, printed: seq<string>) | RolledBack(printed: seq<string>)

  /**
   * generate_table_name as written, on PostgreSQL. The row is saved and
   * its line printed before the rename; a refused ALTER TABLE aborts the
   * transaction, the `except ProgrammingError: pass` swallows only the
   * Python exception, and leaving `connection.schema_editor()` then fails
   * to release its savepoint, which raises and rolls the whole migration
   * back. Only the printed lines survive.
   */
  function RunAsWritten(rows: seq<RefRow>, tables: set<string>): (r: MigrationRun)
    ensures r.Committed? ==> r.tables == RenameAll(rows, tables) && r.printed == Messages(rows)
    ensures r.RolledBack? ==> |r.printed| <= |Messages(rows)|
  {
    if rows == [] then Committed(tables, [])
    else
      var before := RunAsWritten(rows[..|rows| - 1], tables);
      var last := rows[|rows| - 1];
      if before.RolledBack? then before
      else if Refused(before.tables, last) then RolledBack(before.printed + RowMessages(last))
      else Committed(RenameFor(before.tables, last), before.printed + RowMessages(last))
  }

  /** As written, a migration in which the database refuses no rename commits the intended result. */
  lemma {:induction false} AsWrittenCommitsWithoutRefusal(rows: seq<RefRow>, tables: set<string>)
    requires forall i :: 0 <= i < |rows| ==> !Refused(RenameAll(rows[..i], tables), rows[i])
    ensures RunAsWritten(rows, tables) == Committed(RenameAll(rows, tables), Messages(rows))
  {
    if rows != [] {
      var n := |rows| - 1;
      var init := rows[..n];
      forall i | 0 <= i < n ensures !Refused(RenameAll(init[..i], tables), init[i]) {
        assert init[..i] == rows[..i];
      }
      AsWrittenCommitsWithoutRefusal(init, tables);
    }
  }

  /** As written, one refused rename, after the renames of the rows before it, rolls the whole migration back. */
  lemma {:induction false} AsWrittenRollsBackOnRefusal(rows: seq<RefRow>, tables: set<string>, i: nat)
    requires i < |rows| && Refused(RenameAll(rows[..i], tables), rows[i])
    ensures RunAsWritten(rows, tables).RolledBack?
  {
    var n := |rows| - 1;
    var init := rows[..n];
    if i < n {
      assert init[..i] == rows[..i];
      AsWrittenRollsBackOnRefusal(init, tables, i);
    } else if RunAsWritten(init, tables).Committed? {
      assert rows[..i] == init;
    }
  }

  /**
   * Two datasets whose slugs differ only in '-' against '_': the intended
   * migration renames the first table, skips the second and saves both
   * rows; as written the second rename is refused and everything is
   * rolled back.
   */
  lemma CollidingSlugsRollBack()
    ensures var rows := [RefRow(1, "a-b", None, 0), RefRow(2, "a_b", None, 0)];
            var tables := {"refdata__1", "refdata__2"};
            && RunAsWritten(rows, tables).RolledBack?
            && RenameAll(rows, tables) == {"ref_a_b", "refdata__2"}
  {
    var rows := [RefRow(1, "a-b", None, 0), RefRow(2, "a_b", None, 0)];
    var tables := {"refdata__1", "refdata__2"};
    assert OriginalName(1) == "refdata__1" by { assert NatToString(1) == "1"; }
    assert OriginalName(2) == "refdata__2" by { assert NatToString(2) == "2"; }
    assert NewName("a-b") == "ref_a_b" by { assert Underscored("a-b") == "a_b"; }
    assert NewName("a_b") == "ref_a_b" by { assert Underscored("a_b") == "a_b"; }
    assert "ref_a_b" !in tables by { assert "ref_a_b"[3] != "refdata__1"[3]; }
    var after1 := tables - {"refdata__1"} + {"ref_a_b"};
    assert RenameFor(tables, rows[0]) == after1;
    assert rows[..1][..0] == [];
    assert RenameAll(rows[..1], tables) == after1;
    assert after1 == {"ref_a_b", "refdata__2"};
    assert Refused(after1, rows[1]);
    AsWrittenRollsBackOnRefusal(rows, tables, 1);
    RefusedRenameSkipped(after1, rows[1]);
    assert rows[..1] == rows[..|rows| - 1];
  }

  /** The reference datasets and the database's tables, as the migration changes them. */
  class ReferenceTables {
    var rows: seq<RefRow>
    var tables: set<string>
    var messages: seq<string>

    constructor (rows: seq<RefRow>, tables: set<string>)
      ensures this.rows == rows && this.tables == tables && messages == []
    {
      this.rows := rows;
      this.tables := tables;
      messages := [];
    }

    /**
     * One pass of generate_table_name's loop, with the intended
     * skip-and-continue: a row that needs renaming is saved with its new
     * name and the next schema version, the change is reported, and its
     * table is renamed unless the database refuses, when no table changes.
     */
    method VisitRow(i: nat)
      requires i < |rows|
      modifies this
      ensures rows == old(rows)[i := Migrated(old(rows)[i])]
      ensures tables == RenameFor(old(tables), old(rows)[i])
      ensures messages == old(messages) + RowMessages(old(rows)[i])
    {
      var r := rows[i];
      if NeedsRename(r) {
        var originalName := OriginalName(r.id);
        var tableName := NewName(r.slug);
        messages := messages + [Changing(originalName, tableName)];
        rows := rows[i := r.(tableName := Some(tableName), schemaVersion := r.schemaVersion + 1)];
        NewNameNotOriginal(r.slug, r.id);
        tables := AlterTable(tables, originalName, tableName);
      }
    }

    /**
     * generate_table_name with the intended skip-and-continue: the rows are
     * visited in order, each saved and its table renamed when it needs
     * renaming, a refused rename being skipped.
     */
    method GenerateTableName()
      modifies this
      ensures |rows| == |old(rows)|
      ensures forall i :: 0 <= i < |rows| ==> rows[i] == Migrated(old(rows)[i])
      ensures tables == RenameAll(old(rows), old(tables))
      ensures messages == old(messages) + Messages(old(rows))
    {
      ghost var rows0, tables0, messages0 := rows, tables, messages;
      for i := 0 to |rows|
        invariant |rows| == |rows0|
        invariant forall j :: 0 <= j < i ==> rows[j] == Migrated(rows0[j])
        invariant forall j :: i <= j < |rows| ==> rows[j] == rows0[j]
        invariant tables == RenameAll(rows0[..i], tables0)
        invariant messages == messages0 + Messages(rows0[..i])
      {
        VisitNext(rows0, i, tables0);
        VisitRow(i);
      }
      assert rows0[..|rows0|] == rows0;
    }
  }

  /** Running the migration a second time changes nothing: no migrated row needs a rename. */
  lemma MigrationRerunIsNoop(rows: seq<RefRow>, tables: set<string>)
    ensures var again := seq(|rows|, i requires 0 <= i < |rows| => Migrated(rows[i]));
            RenameAll(again, tables) == tables && Messages(again) == []
  {
    var again := seq(|rows|, i requires 0 <= i < |rows| => Migrated(rows[i]));
    forall i | 0 <= i < |again| ensures !NeedsRename(again[i]) {
      MigratedIdempotent(rows[i]);
    }
    RenameAllUntouched(again, tables);
  }
}
