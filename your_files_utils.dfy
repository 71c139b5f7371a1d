/**
 * The helpers of the "create a table from a CSV in your files" flow: the
 * table name derived from an S3 path, the Postgres types the inferred
 * column types stand for, and the sample of the file the types are
 * inferred from.
 */
module YourFilesUtils {
  import opened Wrappers
  import opened Text
  import Collections

  // ---------------------------------------------------------------------
  // s3_path_to_table_name

  /**
   * os.path.splitext(name)[0] for a name without '/': the text before the
   * last '.', provided some character other than '.' precedes that dot;
   * otherwise (no dot, or only dots before it) the name itself.
   */
  function StripExtension(name: string): (r: string)
    ensures |r| <= |name| && r == name[..|r|]
    ensures '.' !in name ==> r == name
    ensures |r| < |name| ==> name[|r|] == '.' && '.' !in name[|r| + 1..]
                             && exists i :: 0 <= i < |r| && r[i] != '.'
  {
    match LastDot(name)
    case None => name
    case Some(d) =>
      if exists i :: 0 <= i < d && name[i] != '.' then name[..d] else name
  }

  /** The index of the last '.' in the text, if any. */
  function LastDot(s: string): (r: Option<nat>)
    ensures r.None? <==> '.' !in s
    ensures r.Some? ==> r.value < |s| && s[r.value] == '.' && '.' !in s[r.value + 1..]
  {
    if s == [] then None
    else if s[|s| - 1] == '.' then Some(|s| - 1)
    else
      var r := LastDot(s[..|s| - 1]);
      assert s == s[..|s| - 1] + [s[|s| - 1]];
      r
  }

  /** The characters re.sub(r'[^\w\s-]', '', ...) keeps, on ASCII text. */
  predicate Allowed(c: char) { IsWordChar(c) || IsSpace(c) || c == '-' }

  /** The characters a run of which re.sub(r'[-\s]+', '_', ...) replaces. */
  predicate Separator(c: char) { c == '-' || IsSpace(c) }

  /** The characters of a slug-like file name. */
  predicate SlugChar(c: char) { IsLower(c) || IsDigit(c) || c == '-' }

  /** The characters a table name is made of. */
  predicate TableNameChar(c: char) { IsLower(c) || IsDigit(c) || c == '_' }

  /** re.sub(r'[-\s]+', '_', s): every maximal run of '-' and whitespace becomes one '_'. */
  function Collapse(s: string): (r: string)
    ensures forall i :: 0 <= i < |r| ==> !Separator(r[i])
  {
    if s == [] then []
    else if Separator(s[0]) then
      if |s| > 1 && Separator(s[1]) then Collapse(s[1..]) else "_" + Collapse(s[1..])
    else [s[0]] + Collapse(s[1..])
  }

  /** What the collapse leaves is '_' or a character of the text. */
  lemma {:induction false} CollapseAlphabet(s: string)
    ensures forall i :: 0 <= i < |Collapse(s)| ==> Collapse(s)[i] == '_' || Collapse(s)[i] in s
  {
    if s != [] {
      CollapseAlphabet(s[1..]);
      assert forall c :: c in s[1..] ==> c in s;
    }
  }

  /**
   * s3_path_to_table_name: the last '/' segment without its extension,
   * then only word characters, whitespace and '-' kept, stripped,
   * lower-cased, and each run of '-' and whitespace turned into '_'.
   */
  function S3PathToTableName(path: string): (r: string)
  {
    var fileName := StripExtension(BaseName(path));
    Collapse(Lower(Strip(Collections.Filter(fileName, Allowed))))
  }

  /** A table name is made of lower-case letters, digits and '_' only. */
  lemma TableNameAlphabet(path: string)
    ensures forall i :: 0 <= i < |S3PathToTableName(path)| ==> TableNameChar(S3PathToTableName(path)[i])
  {
    var kept := Collections.Filter(StripExtension(BaseName(path)), Allowed);
    var stripped := Strip(kept);
    StripKeeps(kept);
    var lowered := Lower(stripped);
    assert forall i :: 0 <= i < |lowered| ==> Allowed(lowered[i]) && !IsUpper(lowered[i]) by {
      forall i | 0 <= i < |lowered| ensures Allowed(lowered[i]) && !IsUpper(lowered[i]) {
        assert stripped[i] in stripped;
      }
    }
    var r := Collapse(lowered);
    CollapseAlphabet(lowered);
    forall i | 0 <= i < |r| ensures TableNameChar(r[i]) {
      if r[i] != '_' {
        var j :| 0 <= j < |lowered| && lowered[j] == r[i];
      }
    }
  }

  /** Every character of the stripped text is one of the text's. */
  lemma StripKeeps(s: string)
    ensures forall c :: c in Strip(s) ==> c in s
  {
    var t := LStrip(s);
    assert forall c :: c in RStrip(t) ==> c in t;
    assert forall c :: c in t ==> c in s;
  }

  /** Lower-casing text without upper-case letters changes nothing. */
  lemma LowerNoUpper(s: string)
    requires forall i :: 0 <= i < |s| ==> !IsUpper(s[i])
    ensures Lower(s) == s
  {
  }

  /** A table name is its own table name: every step leaves it unchanged. */
  lemma TableNameIdempotent(path: string)
    ensures S3PathToTableName(S3PathToTableName(path)) == S3PathToTableName(path)
  {
    var t := S3PathToTableName(path);
    TableNameAlphabet(path);
    PlainNameUnchanged(t);
  }

  /** Each step of the conversion leaves a text of table-name characters as it is. */
  lemma PlainNameUnchanged(t: string)
    requires forall i :: 0 <= i < |t| ==> TableNameChar(t[i])
    ensures S3PathToTableName(t) == t
  {
    forall i | 0 <= i < |t|
      ensures t[i] != '/' && t[i] != '.' && PlainChar(t[i]) && !Separator(t[i])
    {
      TableNameCharFacts(t[i]);
    }
    NoSlashBaseName(t);
    assert StripExtension(t) == t;
    CleanUnchanged(t);
    CollapsePlain(t);
  }

  /** The characters the filter, the strip and the lower-casing all leave alone. */
  predicate PlainChar(c: char) { Allowed(c) && !IsSpace(c) && !IsUpper(c) }

  lemma TableNameCharFacts(c: char)
    requires TableNameChar(c)
    ensures c != '/' && c != '.' && PlainChar(c) && !Separator(c)
  {
  }

  lemma SlugCharFacts(c: char)
    requires SlugChar(c)
    ensures PlainChar(c)
  {
  }

  /** Text of plain characters passes the filter, the strip and the lower-casing unchanged. */
  lemma CleanUnchanged(t: string)
    requires forall i :: 0 <= i < |t| ==> PlainChar(t[i])
    ensures Lower(Strip(Collections.Filter(t, Allowed))) == t
  {
    assert forall x :: x in t ==> Allowed(x) by {
      forall x | x in t ensures Allowed(x) {
        var i :| 0 <= i < |t| && t[i] == x;
        assert PlainChar(t[i]);
      }
    }
    Collections.FilterAllPass(t, Allowed);
    CleanedUnchanged(t);
  }

  lemma CleanedUnchanged(t: string)
    requires forall i :: 0 <= i < |t| ==> PlainChar(t[i])
    ensures Lower(Strip(t)) == t
  {
    assert forall i :: 0 <= i < |t| ==> !IsSpace(t[i]);
    StripNoSpace(t);
    assert forall i :: 0 <= i < |t| ==> !IsUpper(t[i]);
    LowerNoUpper(t);
  }

  /** A text without '/' is its own base name. */
  lemma NoSlashBaseName(t: string)
    requires forall i :: 0 <= i < |t| ==> t[i] != '/'
    ensures BaseName(t) == t
  {
    var base := BaseName(t);
    assert |base| == |t|;
  }

  /** The file the create-table flow is exercised with becomes the table 'a_csv'. */
  lemma ExampleTableName()
    ensures S3PathToTableName("user/federated/abc/a-csv.csv") == "a_csv"
  {
    assert "user/federated/abc/a-csv.csv" == "user/federated/abc" + "/" + "a-csv.csv";
    BaseNameAfterSlash("user/federated/abc", "a-csv.csv");
    ExampleExtension();
    ExampleCleaned();
  }

  lemma ExampleExtension()
    ensures StripExtension("a-csv.csv") == "a-csv"
  {
    var name := "a-csv.csv";
    assert LastDot(name) == Some(5);
    assert name[0] != '.';
  }

  lemma ExampleCleaned()
    ensures Collapse(Lower(Strip(Collections.Filter("a-csv", Allowed)))) == "a_csv"
  {
    var t := "a-csv";
    forall i | 0 <= i < |t| ensures PlainChar(t[i]) {
      assert SlugChar(t[i]);
      SlugCharFacts(t[i]);
    }
    CleanUnchanged(t);
    ExampleCollapse();
  }

  lemma ExampleCollapse()
    ensures Collapse("a-csv") == "a_csv"
  {
    var t := "a-csv";
    CollapsePlain(t[2..]);
    CollapseOneSeparator(t[1..]);
    CollapseKeeps(t);
  }

  /** Text without separators collapses to itself. */
  lemma {:induction false} CollapsePlain(s: string)
    requires forall i :: 0 <= i < |s| ==> !Separator(s[i])
    ensures Collapse(s) == s
  {
    if s != [] {
      CollapsePlain(s[1..]);
      assert [s[0]] + s[1..] == s;
    }
  }

  /** A lone separator before a character that is not one becomes '_'. */
  lemma CollapseOneSeparator(s: string)
    requires |s| >= 2 && Separator(s[0]) && !Separator(s[1])
    ensures Collapse(s) == "_" + Collapse(s[1..])
  {
  }

  /** A character that is no separator is kept. */
  lemma CollapseKeeps(s: string)
    requires |s| >= 1 && !Separator(s[0])
    ensures Collapse(s) == [s[0]] + Collapse(s[1..])
  {
  }

  /** The base name of a path ending in '/' and a name without '/' is that name. */
  lemma BaseNameAfterSlash(dir: string, name: string)
    requires '/' !in name
    ensures BaseName(dir + "/" + name) == name
  {
    var path := dir + "/" + name;
    var base := BaseName(path);
    assert path[|dir|] == '/';
    assert path[|dir| + 1..] == name;
    assert |base| == |name|;
  }

  // ---------------------------------------------------------------------
  // SCHEMA_POSTGRES_DATA_TYPE_MAP

  const IntegerType := "integer"
  const BooleanType := "boolean"
  const DateType := "date"
  const TimestampType := "timestamp"
  const NumericType := "numeric"
  const TextType := "text"

  /** The Postgres column types a CSV column can be created with. */
  const PostgresTypes: set<string> := {IntegerType, BooleanType, DateType, TimestampType, NumericType, TextType}

  /** The inferred schema types the map knows, with their Postgres types. */
  const SchemaTypeMap: map<string, string> :=
    map["integer" := IntegerType, "boolean" := BooleanType, "date" := DateType, "datetime" := TimestampType,
        "number" := NumericType, "text" := TextType]

  /** SCHEMA_POSTGRES_DATA_TYPE_MAP.get(type, 'text'). */
  function PostgresType(schemaType: string): (r: string)
    ensures r in PostgresTypes
    ensures schemaType !in SchemaTypeMap ==> r == TextType
  {
    if schemaType in SchemaTypeMap then SchemaTypeMap[schemaType] else TextType
  }

  /** The known types map one to one; 'datetime' is the only one renamed besides 'number'. */
  lemma PostgresTypeKnown()
    ensures PostgresType("integer") == "integer" && PostgresType("boolean") == "boolean"
    ensures PostgresType("date") == "date" && PostgresType("datetime") == "timestamp"
    ensures PostgresType("number") == "numeric" && PostgresType("text") == "text"
  {
  }

  // ---------------------------------------------------------------------
  // get_s3_csv_column_types

  /** The text the sampling loop builds from lines: each followed by a newline. */
  function Lines(lines: seq<string>): (r: string)
    ensures |r| >= |lines|
  {
    if lines == [] then ""
    else Lines(lines[..|lines| - 1]) + lines[|lines| - 1] + "\n"
  }

  function Min(a: int, b: int): int { if a < b then a else b }

  /** The number of lines the sample holds: at most eleven. */
  const SampleSize := 11

  /**
   * The sampling loop of get_s3_csv_column_types: each line is appended
   * with a newline, and the loop stops after the line whose index exceeds
   * nine, so at most eleven lines are read.
   */
  method SampleLines(lines: seq<string>) returns (csvData: string)
    ensures csvData == Lines(lines[..Min(|lines|, SampleSize)])
  {
    csvData := "";
    var count := 0;
    while count < |lines|
      invariant 0 <= count <= |lines| && count <= SampleSize
      invariant csvData == Lines(lines[..count])
    {
      assert lines[..count + 1][..count] == lines[..count];
      csvData := csvData + lines[count] + "\n";
      count := count + 1;
      if count > 10 {
        break;
      }
    }
  }

  /** The sample is the lines joined by newlines, with a final newline. */
  lemma {:induction false} LinesJoin(lines: seq<string>)
    ensures Lines(lines) == Join(lines + [""], '\n')
  {
    if lines != [] {
      var init := lines[..|lines| - 1];
      LinesJoin(init);
      JoinSnoc(init, lines[|lines| - 1]);
      assert init + [lines[|lines| - 1]] == lines;
    }
  }

  /** Appending a part before the empty last part of a join. */
  lemma {:induction false} JoinSnoc(parts: seq<string>, p: string)
    ensures Join(parts + [p] + [""], '\n') == Join(parts + [""], '\n') + p + "\n"
    decreases |parts|
  {
    if parts == [] {
      assert [p] + [""] == [p, ""];
      assert Join([p, ""], '\n') == p + "\n" + Join([""], '\n');
    } else {
      JoinSnoc(parts[1..], p);
      assert (parts + [p] + [""])[1..] == parts[1..] + [p] + [""];
      assert (parts + [""])[1..] == parts[1..] + [""];
    }
  }

  /**
   * The CSV reader sees exactly the sampled lines: splitting the sample on
   * newlines gives back the first eleven lines (and the empty text after
   * the last newline), when no line holds a newline of its own.
   */
  lemma SampleSplits(lines: seq<string>)
    requires forall i :: 0 <= i < |lines| ==> '\n' !in lines[i]
    ensures var sample := lines[..Min(|lines|, SampleSize)];
            Split(Lines(sample), '\n') == sample + [""]
  {
    var sample := lines[..Min(|lines|, SampleSize)];
    LinesJoin(sample);
    var parts := sample + [""];
    assert forall i :: 0 <= i < |parts| ==> '\n' !in parts[i] by {
      forall i | 0 <= i < |parts| ensures '\n' !in parts[i] {
        if i < |sample| { assert parts[i] == lines[i]; }
      }
    }
    SplitJoin(parts, '\n');
  }

  /** A field of the inferred table schema: its name and its inferred type. */
  datatype Field = Field(name: string, schemaType: string)

  /**
   * field_map as the loop leaves it: every field's name maps to the
   * Postgres type of its inferred type, a later field of the same name
   * overwriting an earlier one.
   */
  function FieldMap(fields: seq<Field>): (r: map<string, string>)
    ensures forall i :: 0 <= i < |fields| ==> fields[i].name in r
  {
    if fields == [] then map[]
    else
      var last := fields[|fields| - 1];
      FieldMap(fields[..|fields| - 1])[last.name := PostgresType(last.schemaType)]
  }

  /** Every column is one of the fields' names. */
  lemma {:induction false} FieldMapKeys(fields: seq<Field>)
    ensures forall k :: k in FieldMap(fields) ==> exists i :: 0 <= i < |fields| && fields[i].name == k
  {
    if fields != [] {
      var init := fields[..|fields| - 1];
      FieldMapKeys(init);
      assert forall i :: 0 <= i < |init| ==> init[i] == fields[i];
    }
  }

  /** Every column is given one of the Postgres types a table can be created with. */
  lemma {:induction false} FieldMapTypes(fields: seq<Field>)
    ensures forall k :: k in FieldMap(fields) ==> FieldMap(fields)[k] in PostgresTypes
  {
    if fields != [] {
      FieldMapTypes(fields[..|fields| - 1]);
    }
  }

  /** A column takes the type of the last field of its name. */
  lemma {:induction false} FieldMapLast(fields: seq<Field>, i: nat)
    requires i < |fields|
    requires forall j :: i < j < |fields| ==> fields[j].name != fields[i].name
    ensures FieldMap(fields)[fields[i].name] == PostgresType(fields[i].schemaType)
  {
    var init := fields[..|fields| - 1];
    if i < |fields| - 1 {
      FieldMapLast(init, i);
    }
  }

  /**
   * The type loop of get_s3_csv_column_types, over the fields the schema
   * inference returned.
   */
  method ColumnMap(fields: seq<Field>) returns (fieldMap: map<string, string>)
    ensures fieldMap == FieldMap(fields)
  {
    fieldMap := map[];
    for i := 0 to |fields|
      invariant fieldMap == FieldMap(fields[..i])
    {
      assert fields[..i + 1][..i] == fields[..i];
      fieldMap := fieldMap[fields[i].name := PostgresType(fields[i].schemaType)];
    }
    assert fields[..|fields|] == fields;
  }

  /**
   * get_s3_csv_column_types: the object's lines (`lines`, each as str()
   * renders it) are sampled, the table schema is inferred from the sample
   * (`infer`), and each inferred field is given its Postgres type.
   */
  method ColumnTypes(lines: seq<string>, infer: string -> seq<Field>) returns (fieldMap: map<string, string>)
    ensures fieldMap == FieldMap(infer(Lines(lines[..Min(|lines|, SampleSize)])))
  {
    var csvData := SampleLines(lines);
    fieldMap := ColumnMap(infer(csvData));
  }
}
