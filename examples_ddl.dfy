/**
 * Two tables worked through the generator end to end: one with a declared
 * primary key and a VARCHAR column, one with a LONGCHAR column and no key.
 */
module DdlExamples {
  import opened Text
  import opened TableCreator

  /** The script for three parameters, written out piece by piece. */
  lemma DdlOfThree(tableName: string, a: string, b: string, c: string)
    ensures Ddl(tableName, [a, b, c])
      == "DROP TABLE IF EXISTS " + tableName + ";\nCREATE TABLE " + tableName + "("
       + a + ", " + b + ", " + c
       + ");"
  {
    JoinThree(a, b, c, ", ");
  }

  lemma StudentsColumns()
    ensures ColumnParameters([Column("id", "INT", 10), Column("name", "VARCHAR", 50)])
      == ["`id` INT", "`name` VARCHAR(50)"]
  {
    var columns := [Column("id", "INT", 10), Column("name", "VARCHAR", 50)];
    assert IntToDecimal(50) == "50" by {
      assert NatToDecimal(5) == "5";
      assert NatToDecimal(0) == "0";
    }
    assert Escape("name") == "`name`";
    assert Escape("id") == "`id`";
    assert ConvertToMysqlDatatype("INT") == "INT";
    assert ColumnParameter(columns[0]) == "`id` INT";
    assert ColumnHead(columns[1]) == "`name` VARCHAR";
    assert SizeSuffix(columns[1]) == "(50)";
    assert ColumnParameter(columns[1]) == "`name` VARCHAR(50)";
  }

  /** The second index is the first primary one; the third, also primary, is ignored. */
  lemma StudentsPrimaryKeys()
    ensures PrimaryKeys([Index(false, ["name"]), Index(true, ["id"]), Index(true, ["name"])]) == Some(["`id`"])
  {
    var indexes := [Index(false, ["name"]), Index(true, ["id"]), Index(true, ["name"])];
    assert FirstPrimary(indexes) == Some(1);
    assert Escape("id") == "`id`";
    assert EscapeAll(["id"]) == ["`id`"];
  }

  lemma StudentsKeyClause()
    ensures PrimaryKeyClause(ResolvedPrimaryKeys([Index(false, ["name"]), Index(true, ["id"]), Index(true, ["name"])]))
      == "PRIMARY KEY (`id`)"
  {
    StudentsPrimaryKeys();
  }

  lemma StudentsParameters()
    ensures Parameters([Column("id", "INT", 10), Column("name", "VARCHAR", 50)],
      [Index(false, ["name"]), Index(true, ["id"]), Index(true, ["name"])])
      == ["`id` INT", "`name` VARCHAR(50)", "PRIMARY KEY (`id`)"]
  {
    var columns := [Column("id", "INT", 10), Column("name", "VARCHAR", 50)];
    var indexes := [Index(false, ["name"]), Index(true, ["id"]), Index(true, ["name"])];
    StudentsColumns();
    StudentsPrimaryKeys();
    StudentsKeyClause();
    assert Parameters(columns, indexes) == ColumnParameters(columns) + [PrimaryKeyClause(ResolvedPrimaryKeys(indexes))];
  }

  /** Table `students`: columns id INT and name VARCHAR(50), keyed on id. */
  lemma StudentsExample()
    ensures CreateTableQuery("students",
      [Column("id", "INT", 10), Column("name", "VARCHAR", 50)],
      [Index(false, ["name"]), Index(true, ["id"]), Index(true, ["name"])])
      == "DROP TABLE IF EXISTS " + "students" + ";\nCREATE TABLE " + "students" + "("
       + "`id` INT" + ", " + "`name` VARCHAR(50)" + ", " + "PRIMARY KEY (`id`)"
       + ");"
  {
    StudentsParameters();
    DdlOfThree("students", "`id` INT", "`name` VARCHAR(50)", "PRIMARY KEY (`id`)");
  }

  lemma LogsColumns()
    ensures ColumnParameters([Column("msg", "LONGCHAR", 0)]) == ["`msg` LONGTEXT"]
  {
    var columns := [Column("msg", "LONGCHAR", 0)];
    assert Escape("msg") == "`msg`";
    assert ConvertToMysqlDatatype("LONGCHAR") == "LONGTEXT";
    assert ColumnParameter(columns[0]) == "`msg` LONGTEXT";
  }

  lemma LogsParameters()
    ensures Parameters([Column("msg", "LONGCHAR", 0)], [Index(false, ["msg"])])
      == ["`msg` LONGTEXT", "`fallback_rowid` INTEGER AUTO_INCREMENT", "PRIMARY KEY (`fallback_rowid`)"]
  {
    var columns := [Column("msg", "LONGCHAR", 0)];
    var indexes := [Index(false, ["msg"])];
    assert FirstPrimary(indexes) == None;
    FallbackParameters(columns, indexes);
    LogsColumns();
  }

  /** Table `logs`: one LONGCHAR column and no primary index, so the fallback key is added. */
  lemma LogsExample()
    ensures CreateTableQuery("logs", [Column("msg", "LONGCHAR", 0)], [Index(false, ["msg"])])
      == "DROP TABLE IF EXISTS " + "logs" + ";\nCREATE TABLE " + "logs" + "("
       + "`msg` LONGTEXT" + ", " + "`fallback_rowid` INTEGER AUTO_INCREMENT" + ", " + "PRIMARY KEY (`fallback_rowid`)"
       + ");"
  {
    LogsParameters();
    DdlOfThree("logs", "`msg` LONGTEXT", "`fallback_rowid` INTEGER AUTO_INCREMENT", "PRIMARY KEY (`fallback_rowid`)");
  }
}
