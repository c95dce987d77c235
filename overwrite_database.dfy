/**
 * The tenant rewrite applied to every statement before it is checked and
 * forwarded: with a restricted database `D` configured, database switches
 * and database listings are pinned to `D` and every other statement has its
 * literal `default` replaced by `D`, after being lower-cased.
 */
module StatementRewrite {
  import opened Wrappers
  import opened JavaStrings

  const DefaultDatabase := "default"

  /** The rewrite; a null statement with a restriction set throws in the source, hence the precondition. */
  function OverwriteDatabase(restrictDatabase: Option<string>, statement: Option<string>): (r: Option<string>)
    requires restrictDatabase.Some? ==> statement.Some?
    ensures r.None? <==> statement.None?
  {
    match restrictDatabase
    case None => statement
    case Some(db) =>
      var sql := ToLower(statement.value);
      if Contains(sql, "use ") then Some("USE " + db)
      else if Contains(sql, "show ") then
        if Contains(sql, "databases") then Some("SHOW DATABASES LIKE `" + db + "`")
        else if Contains(sql, "schemas") then Some("SHOW SCHEMAS LIKE `" + db + "`")
        else Some(Replace(sql, DefaultDatabase, db))
      else Some(Replace(sql, DefaultDatabase, db))
  }

  /** Without a restriction the statement passes untouched, original casing included. */
  lemma UnrestrictedIsIdentity(statement: Option<string>)
    ensures OverwriteDatabase(None, statement) == statement
  {
  }

  /** Any statement mentioning `use ` becomes `USE D`, whatever it named and whatever else it says. */
  lemma UseIsOverridden(db: string, statement: string)
    requires Contains(ToLower(statement), "use ")
    ensures OverwriteDatabase(Some(db), Some(statement)) == Some("USE " + db)
  {
  }

  /** A `show ` statement mentioning `databases` lists only `D`. */
  lemma ShowDatabasesIsConfined(db: string, statement: string)
    requires !Contains(ToLower(statement), "use ")
    requires Contains(ToLower(statement), "show ") && Contains(ToLower(statement), "databases")
    ensures OverwriteDatabase(Some(db), Some(statement)) == Some("SHOW DATABASES LIKE `" + db + "`")
  {
  }

  /** A `show ` statement mentioning `schemas` but not `databases` lists only `D`. */
  lemma ShowSchemasIsConfined(db: string, statement: string)
    requires !Contains(ToLower(statement), "use ")
    requires Contains(ToLower(statement), "show ") && !Contains(ToLower(statement), "databases")
    requires Contains(ToLower(statement), "schemas")
    ensures OverwriteDatabase(Some(db), Some(statement)) == Some("SHOW SCHEMAS LIKE `" + db + "`")
  {
  }

  /** Every other statement is lower-cased with each `default` replaced by `D`. */
  lemma OtherStatementsReplaceDefault(db: string, statement: string)
    requires !Contains(ToLower(statement), "use ")
    requires Contains(ToLower(statement), "show ") ==>
               !Contains(ToLower(statement), "databases") && !Contains(ToLower(statement), "schemas")
    ensures OverwriteDatabase(Some(db), Some(statement)) == Some(Replace(ToLower(statement), DefaultDatabase, db))
  {
  }

  /** ... and one without `default` comes back merely lower-cased. */
  lemma NoDefaultIsOnlyLowered(db: string, statement: string)
    requires !Contains(ToLower(statement), "use ")
    requires Contains(ToLower(statement), "show ") ==>
               !Contains(ToLower(statement), "databases") && !Contains(ToLower(statement), "schemas")
    requires !Contains(ToLower(statement), DefaultDatabase)
    ensures OverwriteDatabase(Some(db), Some(statement)) == Some(ToLower(statement))
  {
    ReplaceAbsent(ToLower(statement), DefaultDatabase, db);
  }

  /** With a restriction the result depends on the statement only through its lower-case form. */
  lemma CaseInsensitive(db: string, s1: string, s2: string)
    requires ToLower(s1) == ToLower(s2)
    ensures OverwriteDatabase(Some(db), Some(s1)) == OverwriteDatabase(Some(db), Some(s2))
  {
  }

  /**
   * A database switch always lands in `D`, whatever database it names and
   * however its keyword is cased: `USE x`, `use x`, `Use x`, ...
   */
  lemma EverySwitchLandsInRestrictedDatabase(db: string, keyword: string, x: string)
    requires ToLower(keyword) == "use "
    ensures OverwriteDatabase(Some(db), Some(keyword + x)) == Some("USE " + db)
  {
    ToLowerAppend(keyword, x);
    assert OccursAt(ToLower(keyword + x), "use ", 0);
  }

  /** Rewriting a database switch twice gives what rewriting it once gave. */
  lemma SwitchRewriteIsStable(db: string, statement: string)
    requires Contains(ToLower(statement), "use ")
    ensures OverwriteDatabase(Some(db), OverwriteDatabase(Some(db), Some(statement))) ==
            OverwriteDatabase(Some(db), Some(statement))
  {
    assert ToLower("USE ") == "use ";
    EverySwitchLandsInRestrictedDatabase(db, "USE ", db);
  }

  /**
   * With the restricted database named `default` itself, a statement that is
   * neither a switch nor a listing is forwarded merely lower-cased.
   */
  lemma DefaultTenantOnlyLowers(statement: string)
    requires !Contains(ToLower(statement), "use ")
    requires Contains(ToLower(statement), "show ") ==>
               !Contains(ToLower(statement), "databases") && !Contains(ToLower(statement), "schemas")
    ensures OverwriteDatabase(Some(DefaultDatabase), Some(statement)) == Some(ToLower(statement))
  {
  }

  // ---- worked examples ----------------------------------------------------

  lemma ExampleSelectHasNoUse()
    ensures !Contains("select * from default.t", "use ")
  {
    var sql := "select * from default.t";
    MissingHeadRulesOut(sql, "use ", 0, 18);
    assert !OccursAt(sql, "use ", 18) by { assert sql[18..22][1] == sql[19]; }
    MissingHeadRulesOut(sql, "use ", 19, 23);
  }

  /** A single `default` after a prefix free of `d`, followed by a short tail, is replaced once. */
  lemma ReplaceSingleDefault(prefix: string, db: string, tail: string)
    requires 'd' !in prefix && |tail| < |DefaultDatabase|
    ensures Replace(prefix + DefaultDatabase + tail, DefaultDatabase, db) == prefix + db + tail
  {
    var s := prefix + DefaultDatabase + tail;
    var k := |prefix|;
    assert s[..k] == prefix;
    MissingHeadRulesOut(s, DefaultDatabase, 0, k);
    assert s[k..k + 7] == DefaultDatabase;
    ReplaceFirstOccurrence(s, DefaultDatabase, db, k);
    assert s[k + 7..] == tail;
  }

  /** The lower-cased example statement, split around its one `default`, has no `use ` and no `show `. */
  lemma ExampleSelectShape()
    ensures ToLower("SELECT * FROM default.t") == "select * from " + DefaultDatabase + ".t"
    ensures !Contains("select * from " + DefaultDatabase + ".t", "use ")
    ensures !Contains("select * from " + DefaultDatabase + ".t", "show ")
  {
    var sql := "select * from default.t";
    assert sql == "select * from " + DefaultDatabase + ".t";
    assert ToLower("SELECT * FROM default.t") == sql;
    ExampleSelectHasNoUse();
    MissingCharRulesOut(sql, "show ", 1);
  }

  /** A plain statement naming `default` once, near its end, reads from `D` instead. */
  lemma SingleDefaultReplaced(db: string, statement: string, head: string, tail: string)
    requires ToLower(statement) == head + DefaultDatabase + tail
    requires !Contains(head + DefaultDatabase + tail, "use ") && !Contains(head + DefaultDatabase + tail, "show ")
    requires 'd' !in head && |tail| < |DefaultDatabase|
    ensures OverwriteDatabase(Some(db), Some(statement)) == Some(head + db + tail)
  {
    ReplaceSingleDefault(head, db, tail);
  }

  /** `SELECT * FROM default.t` under any tenant database `D` reads from `D.t`, lower-cased. */
  lemma ExampleDefaultReplaced(db: string)
    ensures OverwriteDatabase(Some(db), Some("SELECT * FROM default.t")) == Some("select * from " + db + ".t")
  {
    ExampleSelectShape();
    SingleDefaultReplaced(db, "SELECT * FROM default.t", "select * from ", ".t");
  }

  /** `USE other_db` under `tenant7` switches to `tenant7`. */
  lemma ExampleUseOverridden()
    ensures OverwriteDatabase(Some("tenant7"), Some("USE other_db")) == Some("USE tenant7")
  {
    var x := "other_db";
    assert "USE " + x == "USE other_db";
    assert ToLower("USE ") == "use ";
    EverySwitchLandsInRestrictedDatabase("tenant7", "USE ", x);
    assert "USE " + "tenant7" == "USE tenant7";
  }

  /** `SHOW DATABASES` under `tenant7` lists only `tenant7`. */
  lemma ExampleShowDatabases()
    ensures OverwriteDatabase(Some("tenant7"), Some("SHOW DATABASES")) == Some("SHOW DATABASES LIKE `tenant7`")
  {
    var sql := ToLower("SHOW DATABASES");
    assert sql == "show databases";
    MissingCharRulesOut(sql, "use ", 0);
    assert OccursAt(sql, "show ", 0);
    assert OccursAt(sql, "databases", 5);
    assert "SHOW DATABASES LIKE `" + "tenant7" + "`" == "SHOW DATABASES LIKE `tenant7`";
  }

  /** With a restriction set, the statement's case is lost even when no rule fires. */
  lemma ExampleCasingIsLost()
    ensures OverwriteDatabase(Some("tenant7"), Some("SELECT 1")) == Some("select 1")
  {
    var sql := ToLower("SELECT 1");
    assert sql == "select 1";
    MissingCharRulesOut(sql, "use ", 0);
    MissingCharRulesOut(sql, "show ", 1);
    MissingCharRulesOut(sql, DefaultDatabase, 0);
    NoDefaultIsOnlyLowered("tenant7", "SELECT 1");
  }
}
