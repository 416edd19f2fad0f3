# Access-to-MySQL table DDL generator

This project models the DDL generator of the IPEDS data import tool. The
generator is `TableCreator` in `table_creator.py`. For one table of a
Microsoft Access database, it builds a MySQL script of the form

    DROP TABLE IF EXISTS <table>;
    CREATE TABLE <table>(<column>, ..., [<fallback column>,] PRIMARY KEY (<key>, ...));

The generator reads two kinds of metadata. The ODBC column cursor gives each column's name, type name and size. The DAO table definition gives the indexes, each with a `Primary` flag and ordered fields. Neither is changed by the generator, so the model takes both as inputs:

- `columns: seq<Column>`, the cursor rows in cursor order;
- `indexes: seq<Index>`, the indexes in declared order.

Files:

- `text.dfy` (module `Text`) holds the parts of Python that the generator relies on: `str.join`, and the decimal text an f-string gives an integer. `NatToDecimal` is proved against a parser, `DecimalValue`, by a round-trip lemma.
- `table_creator.dfy` (module `TableCreator`) models the four operations.
  - `_convert_to_mysql_datatype` becomes the function `ConvertToMysqlDatatype`.
  - The two loops, `_get_column_parameters` and `_get_primary_keys`, become the methods `GetColumnParameters` and `GetPrimaryKeys`.
  - `generate_create_table_query` becomes the method `GenerateCreateTableQuery`. Like the source, it sets a `missingPrimaryKeys` flag, reassigns the key list and appends to the parameter list before joining it.
  - Each method is proved against a specification function: `ColumnParameters`, `FirstPrimary`/`PrimaryKeys` and `CreateTableQuery`. The properties of the generated DDL are lemmas about those functions.
  - `CreateTableQuery` is `Ddl` applied to `Parameters`. `Ddl` renders a script from a finished parameter list, and `Parameters` builds that list from the metadata.
- `examples_ddl.dfy` (module `DdlExamples`) works two tables through the generator from start to finish.

Details of the code that the model keeps:

- `_get_primary_keys` falls off the end of its loop when no index is primary, so it returns `None`. The model returns `Option.None` in that case. A primary index with no fields gives `[]`. Both values are falsy in Python, so both trigger the fallback key. The model's name for this test is `MissingPrimaryKeys`.
- Only the source type name `VARCHAR` gets a `(size)` suffix. The suffix test looks at the source type name, not at the converted one.
- Identifiers are wrapped in backticks, and a backtick inside a name is not doubled (`EscapeAddsTwoBackticks`). The table name is inserted as it is, without escaping.
- A table with no columns is not rejected. With a declared key its statement is `CREATE TABLE t(PRIMARY KEY (...))` (`NoColumnsWithKey`).
- `GenerateCreateTableQuery`'s result equals a function of the table name and the metadata. So the same inputs always give the same DDL text.

`table_creator.py` has no `(size,scale)` suffix for decimal types, no unsupported-type error and no empty-column-list error, and neither does the model.

## Model

| member | source | states |
|---|---|---|
| `TableCreator.Escape` | table_creator.py:37 | the escaped name is the name with one backtick added before and one after: two characters longer, backticks at both ends, the name itself in between |
| `TableCreator.EscapeRoundTrip` | table_creator.py:37 | stripping the outer characters of an escaped name gives the name back |
| `TableCreator.EscapeInjective` | table_creator.py:73 | two different column names never give the same escaped identifier |
| `TableCreator.EscapeAddsTwoBackticks` | table_creator.py:61 | escaping adds exactly two backticks; backticks inside the name are not doubled |
| `TableCreator.EscapeAll` | table_creator.py:61 | the key-name comprehension keeps the length and order of the index fields and escapes each one |
| `TableCreator.ConvertToMysqlDatatype` | table_creator.py:81-93 | the converted type is never `LONGCHAR`; it is either the source type unchanged or `LONGTEXT` |
| `TableCreator.ConvertChangesOnlyLongchar` | table_creator.py:89-93 | the type conversion changes a name if and only if it is `LONGCHAR`, which becomes `LONGTEXT` |
| `TableCreator.ConvertIdempotent` | table_creator.py:89-93 | converting twice is the same as converting once, and the result is never `LONGCHAR` |
| `TableCreator.SizeSuffix` | table_creator.py:74-75 | the size suffix is empty exactly when the source type is not `VARCHAR`; otherwise it opens with `(` and closes with `)` around at least one character |
| `TableCreator.ColumnHead` | table_creator.py:73 | the head of a column entry begins with the escaped column name followed by a space |
| `TableCreator.ColumnParameter` | table_creator.py:73-75 | every column entry begins with the escaped column name, and the entry of a `VARCHAR` column ends with `)` |
| `TableCreator.ColumnParameterShape` | table_creator.py:73-75 | a column entry starts with the escaped name, a space and the converted type; it has more only when the source type is `VARCHAR`; then the rest is `(`, the decimal rendering of the size and `)`, and the size reads back from that rendering |
| `TableCreator.VarcharColumnParameter` | table_creator.py:73-75 | a `VARCHAR` column renders as `` `name` VARCHAR(size) `` |
| `TableCreator.ColumnParameters` | table_creator.py:71-79 | the specification of the column list: one entry per cursor row, entry k being row k's parameter |
| `TableCreator.GetColumnParameters` | table_creator.py:63-79 | the loop returns exactly one entry per source column, in source order, each the column's parameter |
| `TableCreator.FirstPrimary` | table_creator.py:59-60 | returns nothing if and only if no index is primary; otherwise a primary index before which no index is primary |
| `TableCreator.PrimaryKeys` | table_creator.py:58-61 | None exactly when no index is primary; otherwise as many keys as the first primary index has fields, key k being field k escaped |
| `TableCreator.GetPrimaryKeys` | table_creator.py:50-61 | returns None if and only if no index is primary; otherwise the escaped fields of the first primary index, in declared order |
| `TableCreator.LaterIndexesIgnored` | table_creator.py:59-61 | indexes after a primary one, primary or not, never change the keys |
| `TableCreator.NonPrimaryIndexesSkipped` | table_creator.py:59-61 | non-primary indexes placed in front never change the keys |
| `TableCreator.MissingPrimaryKeys` | table_creator.py:35 | the key is missing exactly when the keys are `None` or the empty list, the two falsy values `_get_primary_keys` can return |
| `TableCreator.ResolvedPrimaryKeys` | table_creator.py:34-37 | the key list used in the PRIMARY KEY clause is never empty |
| `TableCreator.FallbackColumnDefinition` | table_creator.py:43 | the added column reads exactly `` `fallback_rowid` INTEGER AUTO_INCREMENT `` |
| `TableCreator.PrimaryKeyClause` | table_creator.py:44-46 | the clause is `PRIMARY KEY (`, then the keys joined by `, `, then `)`: 14 characters more than the joined keys |
| `TableCreator.Parameters` | table_creator.py:39-46 | the parameter list has one entry per column plus one, or plus two when the key is missing, and its last entry is the PRIMARY KEY clause of the keys in use |
| `TableCreator.QueryPrefix` | table_creator.py:48 | the text before the parameters holds `DROP TABLE IF EXISTS `, the table name twice and 16 more characters, and ends with `(` |
| `TableCreator.Ddl` | table_creator.py:47-48 | the script is as long as the prefix, the joined parameters and two characters together, and its last two characters are `);` |
| `TableCreator.CreateTableQuery` | table_creator.py:24-48 | the query is at least as long as the prefix, the PRIMARY KEY clause and `);` together |
| `TableCreator.GenerateCreateTableQuery` | table_creator.py:24-48 | the imperative generator returns exactly the DDL text of `CreateTableQuery` for the same table name and metadata |
| `TableCreator.DdlFrame` | table_creator.py:47-48 | for any parameter list, the script starts with its prefix and ends with `);`; the prefix starts with `DROP TABLE IF EXISTS ` and the unescaped table name, and the same name stands just before its closing `(` |
| `TableCreator.DdlEndsWithLastParameter` | table_creator.py:47-48 | the script ends with the last parameter followed by `);` |
| `TableCreator.ParametersShape` | table_creator.py:39-46 | the parameter list holds the column entries in source order, then the fallback column exactly when the key is missing, then the PRIMARY KEY clause as its last entry |
| `TableCreator.FallbackIff` | table_creator.py:33-37 | the fallback is used if and only if no index is primary, or the first primary index has no fields |
| `TableCreator.FallbackParameters` | table_creator.py:35-46 | with no usable key, the columns are followed by exactly `` `fallback_rowid` INTEGER AUTO_INCREMENT `` and `` PRIMARY KEY (`fallback_rowid`) `` |
| `TableCreator.FallbackKeyClauseText` | table_creator.py:37 | the fallback key clause reads exactly `` PRIMARY KEY (`fallback_rowid`) `` |
| `TableCreator.DeclaredPrimaryKeyParameters` | table_creator.py:44-46 | with a non-empty first primary index, no column is added, and the last entry lists its escaped fields, in order, joined by `, ` |
| `TableCreator.QueryEndsWithPrimaryKeyClause` | table_creator.py:44-48 | the DDL text ends with the PRIMARY KEY clause followed by `);` |
| `TableCreator.NoColumnsWithKey` | table_creator.py:39-48 | a table with no columns and a declared key is created with only its PRIMARY KEY clause |
| `Text.Join` | table_creator.py:47 | joining no parts gives the empty text, one part gives that part alone, and the joined text always begins with the first part |
| `Text.JoinSnoc` | table_creator.py:47 | appending one part to a non-empty list extends the joined text by the separator and that part |
| `Text.JoinEndsWithLast` | table_creator.py:47 | the joined text of a non-empty list ends with its last part |
| `Text.NatToDecimal` | table_creator.py:75 | the decimal rendering of a size is non-empty and all digits; it begins with `0` only for the number 0, which renders as `0` alone |
| `Text.DecimalValue` | table_creator.py:75 | the value read from k decimal digits is below 10 to the power k |
| `Text.NatToDecimalRoundTrip` | table_creator.py:75 | reading the digits back gives the size that was written |
| `Text.IntToDecimal` | table_creator.py:75 | the rendering of an integer is non-empty, begins with `-` if and only if the integer is negative, and is otherwise made of digits |
| `Text.IntValue` | table_creator.py:75 | reading a signed literal gives a negative number only after a leading `-`, never a positive one after it, and a magnitude below 10 to the power of the literal's length |
| `Text.IntToDecimalRoundTrip` | table_creator.py:75 | the same for any integer size, sign included |
| `DdlExamples.StudentsExample` | table_creator.py:24-48 | `students(id INT, name VARCHAR(50))` keyed on `id` gives ``DROP TABLE IF EXISTS students;\nCREATE TABLE students(`id` INT, `name` VARCHAR(50), PRIMARY KEY (`id`));`` |
| `DdlExamples.LogsExample` | table_creator.py:24-48 | `logs(msg LONGCHAR)` with no primary index gives `` `msg` LONGTEXT, `fallback_rowid` INTEGER AUTO_INCREMENT, PRIMARY KEY (`fallback_rowid`) `` |

## Left out

- The COM and ODBC calls (`access_db_cursor.columns(table=...)` and `win32_db.TableDefs(...).Indexes`) are modelled by their results, the `columns` and `indexes` inputs. A missing table, which the DAO call would report as an error, is therefore outside the model.
- The `print` at table_creator.py:32 and the logger are I/O and are not modelled.
- A `column_size` of `None` from the cursor is not modelled. The model's `size` is an integer.
- `data_importer.py` (a pandas `read_sql`/`to_sql` pair), `db_config.py` (configuration and connections), `access_db.py` (opening the Access file) and `main.py` (command-line parsing) are not part of this model. They consist of calls into foreign libraries and I/O.
