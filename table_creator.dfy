/**
 * The Access-to-MySQL DDL generator of table_creator.py (class TableCreator).
 *
 * The Access column cursor and the DAO table definition that the Python
 * object holds are never changed by it, so they become two inputs here:
 * the table's columns in cursor order, and its indexes in declared order.
 * Every operation takes the metadata of the table it is asked about.
 */
module TableCreator {
  import opened Text

  datatype Option<T> = None | Some(value: T)

  /** One row of the column cursor: column_name, type_name, column_size. */
  datatype Column = Column(name: string, typeName: string, size: int)

  /** One DAO index: its Primary flag and the names of its Fields, in order. */
  datatype Index = Index(primary: bool, fields: seq<string>)

  const FallbackPrimaryKeyName: string := "fallback_rowid"
  const FallbackPrimaryKeyDatatype: string := "INTEGER"
  const EscapeIdentifier: string := "`"
  const DropTableIfExists: string := "DROP TABLE IF EXISTS "

  // ---------------------------------------------------------------------------
  // Identifiers

  /** Wraps a name in the escape identifier; backticks inside the name are kept as they are. */
  function Escape(name: string): (r: string)
    ensures |r| == |name| + 2
    ensures r[0] == '`' && r[|r| - 1] == '`'
    ensures r[1..|r| - 1] == name
  {
    EscapeIdentifier + name + EscapeIdentifier
  }

  /** Strips the first and the last character: the inverse of Escape. */
  function Unescape(quoted: string): string
    requires |quoted| >= 2
  {
    quoted[1..|quoted| - 1]
  }

  lemma EscapeRoundTrip(name: string)
    ensures Unescape(Escape(name)) == name
  {
  }

  /** Distinct names stay distinct once escaped. */
  lemma EscapeInjective(a: string, b: string)
    requires Escape(a) == Escape(b)
    ensures a == b
  {
  }

  /** Escaping adds exactly two backticks: one inside the name is not doubled. */
  lemma EscapeAddsTwoBackticks(name: string)
    ensures multiset(Escape(name))['`'] == multiset(name)['`'] + 2
  {
  }

  /** The list comprehension of `_get_primary_keys`: every name escaped, order kept. */
  function EscapeAll(names: seq<string>): (r: seq<string>)
    ensures |r| == |names|
    ensures forall k | 0 <= k < |names| :: r[k] == Escape(names[k])
  {
    if names == [] then [] else [Escape(names[0])] + EscapeAll(names[1..])
  }

  // ---------------------------------------------------------------------------
  // Column parameters

  /** `_convert_to_mysql_datatype`: the one Access type name MySQL lacks is renamed. */
  function ConvertToMysqlDatatype(columnType: string): (r: string)
    ensures r != "LONGCHAR"
    ensures r == columnType || r == "LONGTEXT"
  {
    match columnType
    case "LONGCHAR" => "LONGTEXT"
    case _ => columnType
  }

  /** Only "LONGCHAR" is changed, to "LONGTEXT"; every other name passes through. */
  lemma ConvertChangesOnlyLongchar(columnType: string)
    ensures ConvertToMysqlDatatype(columnType) != columnType <==> columnType == "LONGCHAR"
    ensures columnType == "LONGCHAR" ==> ConvertToMysqlDatatype(columnType) == "LONGTEXT"
  {
  }

  /** Converting a converted name changes nothing more, and no output is an Access-only "LONGCHAR". */
  lemma ConvertIdempotent(columnType: string)
    ensures ConvertToMysqlDatatype(ConvertToMysqlDatatype(columnType)) == ConvertToMysqlDatatype(columnType)
    ensures ConvertToMysqlDatatype(columnType) != "LONGCHAR"
  {
  }

  /** The "(size)" that follows a VARCHAR type; every other type gets nothing. */
  function SizeSuffix(column: Column): (r: string)
    ensures r == [] <==> column.typeName != "VARCHAR"
    ensures r != [] ==> |r| >= 3 && r[0] == '(' && r[|r| - 1] == ')'
  {
    if column.typeName == "VARCHAR" then "(" + IntToDecimal(column.size) + ")" else ""
  }

  /** The column definition built for one cursor row: escaped name, a space, the MySQL type. */
  function ColumnHead(column: Column): (r: string)
    ensures |r| >= |column.name| + 3
    ensures r[..|column.name| + 2] == Escape(column.name) && r[|column.name| + 2] == ' '
  {
    Escape(column.name) + " " + ConvertToMysqlDatatype(column.typeName)
  }

  /** One entry of `_get_column_parameters`. */
  function ColumnParameter(column: Column): (r: string)
    ensures |r| >= |column.name| + 3 && r[..|column.name| + 2] == Escape(column.name)
    ensures column.typeName == "VARCHAR" ==> r[|r| - 1] == ')'
  {
    ColumnHead(column) + SizeSuffix(column)
  }

  /**
   * A column's entry is its escaped name, a space and its converted type, and it
   * carries anything more exactly when the source type is VARCHAR; then what it
   * carries is "(", the size in decimal, and ")", and the size reads back from it.
   */
  lemma ColumnParameterShape(column: Column)
    ensures |ColumnParameter(column)| >= |ColumnHead(column)|
    ensures ColumnParameter(column)[..|ColumnHead(column)|] == ColumnHead(column)
    ensures |ColumnParameter(column)| > |ColumnHead(column)| <==> column.typeName == "VARCHAR"
    ensures column.typeName == "VARCHAR" ==>
      var p, h := ColumnParameter(column), ColumnHead(column);
      |p| >= |h| + 3 && p[|h|] == '(' && p[|p| - 1] == ')' &&
      p[|h| + 1..|p| - 1] == IntToDecimal(column.size) &&
      IntValue(p[|h| + 1..|p| - 1]) == column.size
  {
    if column.typeName == "VARCHAR" {
      var p, h := ColumnParameter(column), ColumnHead(column);
      var digits := IntToDecimal(column.size);
      assert p == h + "(" + digits + ")";
      assert p[|h| + 1..|p| - 1] == digits;
      IntToDecimalRoundTrip(column.size);
    }
  }

  /** A VARCHAR column renders as `name` VARCHAR(size). */
  lemma VarcharColumnParameter(column: Column)
    requires column.typeName == "VARCHAR"
    ensures ColumnParameter(column) == Escape(column.name) + " VARCHAR(" + IntToDecimal(column.size) + ")"
  {
  }

  /** What `_get_column_parameters` returns, as a function of the cursor rows. */
  function ColumnParameters(columns: seq<Column>): (r: seq<string>)
    ensures |r| == |columns|
    ensures forall k | 0 <= k < |columns| :: r[k] == ColumnParameter(columns[k])
  {
    if columns == [] then [] else [ColumnParameter(columns[0])] + ColumnParameters(columns[1..])
  }

  /** `_get_column_parameters`: one entry per cursor row, in cursor order. */
  method GetColumnParameters(columns: seq<Column>) returns (columnParameters: seq<string>)
    ensures |columnParameters| == |columns|
    ensures forall k | 0 <= k < |columns| :: columnParameters[k] == ColumnParameter(columns[k])
  {
    columnParameters := [];
    for i := 0 to |columns|
      invariant |columnParameters| == i
      invariant forall k | 0 <= k < i :: columnParameters[k] == ColumnParameter(columns[k])
    {
      var row := columns[i];
      var columnParameter := Escape(row.name) + " " + ConvertToMysqlDatatype(row.typeName);
      assert columnParameter == ColumnHead(row);
      if row.typeName == "VARCHAR" {
        columnParameter := columnParameter + ("(" + IntToDecimal(row.size) + ")");
      } else {
        assert columnParameter + SizeSuffix(row) == columnParameter;
      }
      columnParameters := columnParameters + [columnParameter];
    }
  }

  // ---------------------------------------------------------------------------
  // Primary keys

  /** The position of the first index flagged primary, if any. */
  function FirstPrimary(indexes: seq<Index>): (r: Option<nat>)
    ensures r.None? <==> forall i | 0 <= i < |indexes| :: !indexes[i].primary
    ensures r.Some? ==> r.value < |indexes| && indexes[r.value].primary
    ensures r.Some? ==> forall j | 0 <= j < r.value :: !indexes[j].primary
  {
    if indexes == [] then None
    else if indexes[0].primary then Some(0)
    else match FirstPrimary(indexes[1..])
      case None => None
      case Some(k) => Some(k + 1)
  }

  /** What `_get_primary_keys` returns: None when no index is primary. */
  function PrimaryKeys(indexes: seq<Index>): (r: Option<seq<string>>)
    ensures r.None? <==> forall i | 0 <= i < |indexes| :: !indexes[i].primary
    ensures r.Some? ==>
      var fields := indexes[FirstPrimary(indexes).value].fields;
      |r.value| == |fields| && forall k | 0 <= k < |fields| :: r.value[k] == Escape(fields[k])
  {
    match FirstPrimary(indexes)
    case None => None
    case Some(i) => Some(EscapeAll(indexes[i].fields))
  }

  /** `_get_primary_keys`: the escaped fields of the first primary index, or None. */
  method GetPrimaryKeys(indexes: seq<Index>) returns (keys: Option<seq<string>>)
    ensures keys.None? <==> forall i | 0 <= i < |indexes| :: !indexes[i].primary
    ensures keys.Some? ==>
      FirstPrimary(indexes).Some? && keys.value == EscapeAll(indexes[FirstPrimary(indexes).value].fields)
    ensures keys == PrimaryKeys(indexes)
  {
    for i := 0 to |indexes|
      invariant forall j | 0 <= j < i :: !indexes[j].primary
    {
      if indexes[i].primary {
        keys := Some(seq(|indexes[i].fields|, k requires 0 <= k < |indexes[i].fields| => Escape(indexes[i].fields[k])));
        assert keys.value == EscapeAll(indexes[i].fields);
        assert FirstPrimary(indexes) == Some(i);
        return;
      }
    }
    keys := None;
  }

  /** Once a primary index has been seen, the indexes after it cannot change the keys. */
  lemma LaterIndexesIgnored(indexes: seq<Index>, later: seq<Index>)
    requires exists i | 0 <= i < |indexes| :: indexes[i].primary
    ensures PrimaryKeys(indexes + later) == PrimaryKeys(indexes)
  {
    var k := FirstPrimary(indexes).value;
    var all := indexes + later;
    assert all[k] == indexes[k];
    assert forall j | 0 <= j < k :: all[j] == indexes[j];
  }

  /** Indexes that are not primary, ahead of the others, do not change the keys. */
  lemma NonPrimaryIndexesSkipped(skipped: seq<Index>, indexes: seq<Index>)
    requires forall i | 0 <= i < |skipped| :: !skipped[i].primary
    ensures PrimaryKeys(skipped + indexes) == PrimaryKeys(indexes)
  {
    var all := skipped + indexes;
    assert forall i | 0 <= i < |indexes| :: all[|skipped| + i] == indexes[i];
    match FirstPrimary(indexes)
    case None =>
      assert forall i | 0 <= i < |all| :: !all[i].primary by {
        forall i | 0 <= i < |all| ensures !all[i].primary {
          if i >= |skipped| { assert all[i] == indexes[i - |skipped|]; }
        }
      }
    case Some(k) =>
      assert all[|skipped| + k] == indexes[k];
      assert forall j | |skipped| <= j < |skipped| + k :: all[j] == indexes[j - |skipped|];
  }

  // ---------------------------------------------------------------------------
  // The CREATE TABLE query

  /** Python's `not primary_keys`: None and the empty list are both falsy. */
  predicate MissingPrimaryKeys(keys: Option<seq<string>>): (missing: bool)
    ensures missing <==> keys == None || keys == Some([])
  {
    keys.None? || keys.value == []
  }

  /** The auto-incrementing column added when the table has no usable primary key. */
  /** The fallback key column's name, escaped. */
  lemma EscapedFallbackName()
    ensures Escape(FallbackPrimaryKeyName) == "`fallback_rowid`"
  {
    assert EscapeIdentifier + FallbackPrimaryKeyName == "`fallback_rowid";
  }

  function FallbackColumnDefinition(): (r: string)
    ensures r == "`fallback_rowid` INTEGER AUTO_INCREMENT"
  {
    EscapedFallbackName();
    Escape(FallbackPrimaryKeyName) + " " + FallbackPrimaryKeyDatatype + " AUTO_INCREMENT"
  }

  /** The key list, joined by ", ", between "PRIMARY KEY (" and ")". */
  function PrimaryKeyClause(keys: seq<string>): (r: string)
    ensures |r| == |Join(keys, ", ")| + 14
    ensures r[..13] == "PRIMARY KEY (" && r[13..|r| - 1] == Join(keys, ", ") && r[|r| - 1] == ')'
  {
    "PRIMARY KEY (" + Join(keys, ", ") + ")"
  }

  /** The keys the PRIMARY KEY clause lists: the source's, or the fallback column alone. */
  function ResolvedPrimaryKeys(indexes: seq<Index>): (r: seq<string>)
    ensures r != []
  {
    var keys := PrimaryKeys(indexes);
    if MissingPrimaryKeys(keys) then [Escape(FallbackPrimaryKeyName)] else keys.value
  }

  /** The entries between the parentheses of CREATE TABLE, before they are joined. */
  function Parameters(columns: seq<Column>, indexes: seq<Index>): (r: seq<string>)
    ensures |r| == |columns| + (if MissingPrimaryKeys(PrimaryKeys(indexes)) then 2 else 1)
    ensures r[|r| - 1] == PrimaryKeyClause(ResolvedPrimaryKeys(indexes))
  {
    ColumnParameters(columns)
      + (if MissingPrimaryKeys(PrimaryKeys(indexes)) then [FallbackColumnDefinition()] else [])
      + [PrimaryKeyClause(ResolvedPrimaryKeys(indexes))]
  }

  /**
   * "DROP TABLE IF EXISTS <table>;\nCREATE TABLE <table>(": the table is
   * dropped and recreated under the same, unescaped name.
   */
  function QueryPrefix(tableName: string): (r: string)
    ensures |r| == |DropTableIfExists| + 2 * |tableName| + 16
    ensures r[|r| - 1] == '('
  {
    DropTableIfExists + tableName + ";\nCREATE TABLE " + tableName + "("
  }

  /** The script for a table whose CREATE TABLE parameters are already built; it is closed by ");". */
  function Ddl(tableName: string, parameters: seq<string>): (r: string)
    ensures |r| == |QueryPrefix(tableName)| + |Join(parameters, ", ")| + 2
    ensures r[|r| - 2] == ')' && r[|r| - 1] == ';'
  {
    QueryPrefix(tableName) + Join(parameters, ", ") + ");"
  }

  /** The text `generate_create_table_query` returns: at least the prefix, the PRIMARY KEY clause and ");". */
  function CreateTableQuery(tableName: string, columns: seq<Column>, indexes: seq<Index>): (r: string)
    ensures |r| >= |QueryPrefix(tableName)| + |PrimaryKeyClause(ResolvedPrimaryKeys(indexes))| + 2
  {
    JoinEndsWithLast(Parameters(columns, indexes), ", ");
    Ddl(tableName, Parameters(columns, indexes))
  }

  /** `generate_create_table_query`. */
  method GenerateCreateTableQuery(tableName: string, columns: seq<Column>, indexes: seq<Index>)
    returns (query: string)
    ensures query == CreateTableQuery(tableName, columns, indexes)
  {
    var missingPrimaryKeys := false;
    var found := GetPrimaryKeys(indexes);
    var primaryKeys: seq<string>;
    if found.None? || found.value == [] {
      missingPrimaryKeys := true;
      primaryKeys := [EscapeIdentifier + FallbackPrimaryKeyName + EscapeIdentifier];
    } else {
      primaryKeys := found.value;
    }

    assert primaryKeys == ResolvedPrimaryKeys(indexes);

    var columnParameters := GetColumnParameters(columns);
    assert columnParameters == ColumnParameters(columns);

    if missingPrimaryKeys {
      columnParameters := columnParameters
        + [EscapeIdentifier + FallbackPrimaryKeyName + EscapeIdentifier + " " + FallbackPrimaryKeyDatatype + " AUTO_INCREMENT"];
    }
    columnParameters := columnParameters + ["PRIMARY KEY (" + Join(primaryKeys, ", ") + ")"];
    assert columnParameters == Parameters(columns, indexes);
    var joined := Join(columnParameters, ", ");
    query := DropTableIfExists + tableName + ";\nCREATE TABLE " + tableName + "(" + joined + ");";
  }

  // ---------------------------------------------------------------------------
  // Properties of the generated DDL

  /**
   * The script drops the table if it exists and recreates it under the same,
   * unescaped name; the parameter list is closed by ");".
   */
  lemma DdlFrame(tableName: string, parameters: seq<string>)
    ensures var q, p, d := Ddl(tableName, parameters), QueryPrefix(tableName), |DropTableIfExists|;
      && q[..|p|] == p
      && q[|q| - 2..] == ");"
      && p[..d] == DropTableIfExists
      && p[d..d + |tableName|] == tableName
      && p[|p| - 1 - |tableName|..|p| - 1] == tableName
  {
  }

  /** The script ends with its last parameter followed by ");". */
  lemma DdlEndsWithLastParameter(tableName: string, parameters: seq<string>)
    requires parameters != []
    ensures var q, c := Ddl(tableName, parameters), parameters[|parameters| - 1] + ");";
      |q| >= |c| && q[|q| - |c|..] == c
  {
    var j := Join(parameters, ", ");
    var last := parameters[|parameters| - 1];
    JoinEndsWithLast(parameters, ", ");
    var q := QueryPrefix(tableName) + j + ");";
    assert q[|q| - |last + ");"|..] == j[|j| - |last|..] + ");";
  }

  /**
   * The parameter list holds the column entries in source order, then the
   * fallback column exactly when the source has no non-empty primary key,
   * then the PRIMARY KEY clause as the last entry.
   */
  lemma ParametersShape(columns: seq<Column>, indexes: seq<Index>)
    ensures var params, missing := Parameters(columns, indexes), MissingPrimaryKeys(PrimaryKeys(indexes));
      && |params| == |columns| + (if missing then 2 else 1)
      && (forall k | 0 <= k < |columns| :: params[k] == ColumnParameter(columns[k]))
      && (missing ==> params[|columns|] == FallbackColumnDefinition())
      && params[|params| - 1] == PrimaryKeyClause(ResolvedPrimaryKeys(indexes))
  {
  }

  /** The fallback column is added exactly when no index is primary or the first primary one has no fields. */
  lemma FallbackIff(indexes: seq<Index>)
    ensures MissingPrimaryKeys(PrimaryKeys(indexes)) <==>
      (forall i | 0 <= i < |indexes| :: !indexes[i].primary)
      || (exists i | 0 <= i < |indexes| ::
            indexes[i].primary && (forall j | 0 <= j < i :: !indexes[j].primary) && indexes[i].fields == [])
  {
  }

  /**
   * With no usable primary key, the parameter list ends with the fallback
   * column followed by PRIMARY KEY (`fallback_rowid`).
   */
  lemma FallbackParameters(columns: seq<Column>, indexes: seq<Index>)
    requires MissingPrimaryKeys(PrimaryKeys(indexes))
    ensures Parameters(columns, indexes) ==
      ColumnParameters(columns) + ["`fallback_rowid` INTEGER AUTO_INCREMENT", "PRIMARY KEY (`fallback_rowid`)"]
  {
    FallbackKeyClauseText();
  }

  lemma FallbackKeyClauseLiteral()
    ensures "PRIMARY KEY (" + "`fallback_rowid`" + ")" == "PRIMARY KEY (`fallback_rowid`)"
  {
  }

  lemma FallbackKeyClauseText()
    ensures PrimaryKeyClause([Escape(FallbackPrimaryKeyName)]) == "PRIMARY KEY (`fallback_rowid`)"
  {
    var key := Escape(FallbackPrimaryKeyName);
    EscapedFallbackName();
    assert Join([key], ", ") == key;
    assert PrimaryKeyClause([key]) == "PRIMARY KEY (" + key + ")";
    FallbackKeyClauseLiteral();
  }

  /**
   * With a non-empty primary key, no column is added and the last entry lists
   * the first primary index's fields, escaped, in declared order.
   */
  lemma DeclaredPrimaryKeyParameters(columns: seq<Column>, indexes: seq<Index>, p: nat)
    requires p < |indexes| && indexes[p].primary && indexes[p].fields != []
    requires forall j | 0 <= j < p :: !indexes[j].primary
    ensures Parameters(columns, indexes) ==
      ColumnParameters(columns) + ["PRIMARY KEY (" + Join(EscapeAll(indexes[p].fields), ", ") + ")"]
  {
    assert FirstPrimary(indexes) == Some(p);
    var keys := EscapeAll(indexes[p].fields);
    assert PrimaryKeys(indexes) == Some(keys);
    assert ResolvedPrimaryKeys(indexes) == keys;
    assert Parameters(columns, indexes) == ColumnParameters(columns) + [PrimaryKeyClause(keys)];
  }

  /** The query ends with the PRIMARY KEY clause and the closing ");". */
  lemma QueryEndsWithPrimaryKeyClause(tableName: string, columns: seq<Column>, indexes: seq<Index>)
    ensures var q, c := CreateTableQuery(tableName, columns, indexes), PrimaryKeyClause(ResolvedPrimaryKeys(indexes)) + ");";
      |q| >= |c| && q[|q| - |c|..] == c
  {
    var params := Parameters(columns, indexes);
    ParametersShape(columns, indexes);
    DdlEndsWithLastParameter(tableName, params);
  }

  /** A table with no columns and a declared key is created with only its PRIMARY KEY clause. */
  lemma NoColumnsWithKey(tableName: string, indexes: seq<Index>)
    requires !MissingPrimaryKeys(PrimaryKeys(indexes))
    ensures CreateTableQuery(tableName, [], indexes) ==
      Ddl(tableName, ["PRIMARY KEY (" + Join(PrimaryKeys(indexes).value, ", ") + ")"])
  {
  }
}
