/** What the credential-reference upgrade leaves in the database. */
module CredentialRefsResult {
  import opened Wrappers
  import opened Naming
  import opened Schema
  import opened SchemaReady
  import opened RowChecks
  import opened CredentialRefs
  import opened CredentialRefsReady

  // ---------------------------------------------------------------- the references

  /** The first table gets its reference, and the program goes on with the others. */
  lemma FirstWritten(db: Database, tables: seq<string>) returns (first: string, others: seq<string>)
    requires KeyedTable(db, REFS) && Distinct(tables) && Run(db, AddRefs(tables)).Some? && tables != []
    ensures tables == [first] + others && first !in others && Distinct(others) && first in db.tables
    ensures KeyedTable(WithRef(db, first), REFS)
    ensures Run(db, AddRefs(tables)) == Run(WithRef(db, first), AddRefs(others))
  {
    first, others := tables[0], tables[1..];
    AddRefsStep(db, first, others);
    AddRefSucceedsExactly(db, first);
    AllOthersStayReady(db, first, others);
  }

  lemma RefWritten(db: Database, first: string, name: string)
    requires first in db.tables
    ensures name in WithRef(db, first).tables <==> name in db.tables
    ensures name in db.tables ==>
              WithRef(db, first).tables[name] ==
              if name == first then Referencing(db.tables[name], REF_COLUMN, REFS, KeyName(name)) else db.tables[name]
    ensures WithRef(db, first).indexes == db.indexes[IndexName(first) := Index(first, [REF_COLUMN])]
  {
  }

  /** Each table of the list gets its reference, and no other table changes. */
  lemma {:induction false} RefsWritten(db: Database, tables: seq<string>, name: string)
    requires KeyedTable(db, REFS) && Distinct(tables) && Run(db, AddRefs(tables)).Some?
    ensures var after := Run(db, AddRefs(tables)).value;
            (name in after.tables <==> name in db.tables) &&
            (name in db.tables ==>
               after.tables[name] ==
               if name in tables then Referencing(db.tables[name], REF_COLUMN, REFS, KeyName(name))
               else db.tables[name])
    decreases |tables|
  {
    if tables == [] {
    } else {
      var first, others := FirstWritten(db, tables);
      RefsWritten(WithRef(db, first), others, name);
      RefWritten(db, first, name);
    }
  }

  /** And its index, and no other index changes. */
  lemma {:induction false} IndexesWritten(db: Database, tables: seq<string>, table: string, index: string)
    requires KeyedTable(db, REFS) && Distinct(tables) && Run(db, AddRefs(tables)).Some?
    ensures var after := Run(db, AddRefs(tables)).value;
            (table in tables ==>
               IndexName(table) in after.indexes && after.indexes[IndexName(table)] == Index(table, [REF_COLUMN])) &&
            ((forall t | t in tables :: IndexName(t) != index) ==>
               (index in after.indexes <==> index in db.indexes) &&
               (index in db.indexes ==> after.indexes[index] == db.indexes[index]))
    decreases |tables|
  {
    if tables == [] {
    } else {
      var first, others := FirstWritten(db, tables);
      IndexesWritten(WithRef(db, first), others, table, index);
      if table == first {
        forall t | t in others ensures IndexName(t) != IndexName(first) {
          IndexNamesDiffer(first, t);
        }
        IndexesWritten(WithRef(db, first), others, table, IndexName(first));
      }
    }
  }

  // ---------------------------------------------------------------- the whole database

  /** The upgrade as one after the other: the two new tables, then the references. */
  lemma InTwoParts(db: Database, md5: Digest) returns (middle: Database)
    requires Run(db, UpgradeProgram(md5)).Some?
    ensures middle == AfterTables(db, md5)
    ensures middle.tables == db.tables[REFS := RefsTable(md5)][TESTS := TestsTable(md5)] && REFS != TESTS
    ensures KeyedTable(middle, REFS) && Distinct(Referring())
    ensures Run(middle, AddRefs(Referring())) == Run(db, UpgradeProgram(md5))
    ensures AllReady(db, Referring())
  {
    RunAppend(db, CreateTables(RefsTable(md5), TestsTable(md5)), AddRefs(Referring()));
    CreateTablesSucceedExactly(db, md5);
    AddRefsAfterTables(db, md5);
    AfterBlock(db, REFS, RefsTable(md5), RefsIndexes(), REFS);
    AfterBlock(AfterRefs(db, md5), TESTS, TestsTable(md5), TestsIndexes(), REFS);
    NameLengths(md5);
    ReferringDistinct();
    middle := AfterTables(db, md5);
  }

  lemma NewNamesApart()
    ensures REFS !in Referring() && TESTS !in Referring()
  {
    if REFS in Referring() {
      ReferringNames(REFS);
    }
    if TESTS in Referring() {
      ReferringNames(TESTS);
    }
  }

  /** What adding references to a list of tables leaves of a database with the two new tables. */
  lemma WrittenBeside(db: Database, refs: Table, tests: Table, middle: Database, tables: seq<string>, name: string)
    requires middle.tables == db.tables[REFS := refs][TESTS := tests] && REFS != TESTS
    requires REFS !in tables && TESTS !in tables && Distinct(tables) && AllReady(db, tables)
    requires KeyedTable(middle, REFS) && Run(middle, AddRefs(tables)).Some?
    ensures var tables' := Run(middle, AddRefs(tables)).value.tables;
            REFS in tables' && tables'[REFS] == refs && TESTS in tables' && tables'[TESTS] == tests
    ensures var tables' := Run(middle, AddRefs(tables)).value.tables;
            if name in tables then
              name in db.tables && name in tables' &&
              tables'[name] == Referencing(db.tables[name], REF_COLUMN, REFS, KeyName(name))
            else
              name == REFS || name == TESTS ||
              ((name in tables' <==> name in db.tables) && (name in db.tables ==> tables'[name] == db.tables[name]))
  {
    RefsWritten(middle, tables, REFS);
    RefsWritten(middle, tables, TESTS);
    RefsWritten(middle, tables, name);
    if name in tables {
      assert Ready(db, name);
    }
  }

  lemma NewTablesWritten(db: Database, md5: Digest)
    requires Run(db, UpgradeProgram(md5)).Some?
    ensures var tables := Run(db, UpgradeProgram(md5)).value.tables;
            REFS in tables && tables[REFS] == RefsTable(md5) && TESTS in tables && tables[TESTS] == TestsTable(md5)
  {
    var middle := InTwoParts(db, md5);
    NewNamesApart();
    WrittenBeside(db, RefsTable(md5), TestsTable(md5), middle, Referring(), "");
  }

  lemma ReferringWritten(db: Database, md5: Digest, table: string)
    requires Run(db, UpgradeProgram(md5)).Some? && table in Referring()
    ensures var tables := Run(db, UpgradeProgram(md5)).value.tables;
            table in db.tables && table in tables &&
            tables[table] == Referencing(db.tables[table], REF_COLUMN, REFS, KeyName(table))
  {
    var middle := InTwoParts(db, md5);
    NewNamesApart();
    WrittenBeside(db, RefsTable(md5), TestsTable(md5), middle, Referring(), table);
  }

  lemma OthersWritten(db: Database, md5: Digest, name: string)
    requires Run(db, UpgradeProgram(md5)).Some? && name !in Referring() && name != REFS && name != TESTS
    ensures var tables := Run(db, UpgradeProgram(md5)).value.tables;
            (name in tables <==> name in db.tables) && (name in db.tables ==> tables[name] == db.tables[name])
  {
    var middle := InTwoParts(db, md5);
    NewNamesApart();
    WrittenBeside(db, RefsTable(md5), TestsTable(md5), middle, Referring(), name);
  }

  lemma ReferringExactly(table: string)
    ensures table in Referring() <==>
            table == "data_sources" || table == "live_feed_subscriptions" || table == "provider_polling_requests" ||
            table == "notification_channels" || table == "webhook_subscriptions"
  {
    var tables := Referring();
    assert tables[0] in tables && tables[1] in tables && tables[2] in tables;
    assert tables[3] in tables && tables[4] in tables;
  }

  /** No other table changes. */
  lemma OtherTablesStay(db: Database, md5: Digest, name: string)
    requires Run(db, UpgradeProgram(md5)).Some?
    requires name != "provider_credential_refs" && name != "provider_connection_tests"
    requires name != "data_sources" && name != "live_feed_subscriptions" && name != "provider_polling_requests" &&
             name != "notification_channels" && name != "webhook_subscriptions"
    ensures var tables := Run(db, UpgradeProgram(md5)).value.tables;
            (name in tables <==> name in db.tables) && (name in db.tables ==> tables[name] == db.tables[name])
  {
    ReferringExactly(name);
    OthersWritten(db, md5, name);
  }

  /** Five tables get a column, null in all their rows, that refers to the credentials and is set to null with
      them, and an index on it; nothing else about them changes. */
  lemma ReferringTables(db: Database, md5: Digest, table: string)
    requires Run(db, UpgradeProgram(md5)).Some?
    requires table == "data_sources" || table == "live_feed_subscriptions" || table == "provider_polling_requests" ||
             table == "notification_channels" || table == "webhook_subscriptions"
    ensures var after := Run(db, UpgradeProgram(md5)).value;
            table in db.tables && table in after.tables &&
            var t, t' := db.tables[table], after.tables[table];
            var key := ForeignKey("credential_ref_id", "provider_credential_refs", "id", "SET NULL");
            t'.columns == t.columns + [Column("credential_ref_id", "UUID", true, None)] &&
            t'.foreignKeys == t.foreignKeys["fk_" + table + "_credential_ref_id" := key] &&
            t'.checks == t.checks && t'.primaryKey == t.primaryKey &&
            |t'.rows| == |t.rows| &&
            forall i | 0 <= i < |t.rows| :: t'.rows[i] == t.rows[i]["credential_ref_id" := Null]
  {
    ReferringExactly(table);
    ReferringWritten(db, md5, table);
    ReferencingMeans(db.tables[table], REF_COLUMN, REFS, KeyName(table));
  }

  lemma ReferringIndexes(db: Database, md5: Digest, table: string)
    requires Run(db, UpgradeProgram(md5)).Some?
    requires table == "data_sources" || table == "live_feed_subscriptions" || table == "provider_polling_requests" ||
             table == "notification_channels" || table == "webhook_subscriptions"
    ensures var indexes, index := Run(db, UpgradeProgram(md5)).value.indexes, "ix_" + table + "_credential_ref_id";
            index in indexes && indexes[index] == Index(table, ["credential_ref_id"])
  {
    var middle := InTwoParts(db, md5);
    ReferringExactly(table);
    IndexesWritten(middle, Referring(), table, "");
  }

  // ---------------------------------------------------------------- the new tables

  lemma BlockIndexes(db: Database, md5: Digest)
    ensures var indexes := AfterTables(db, md5).indexes;
            REFS_INDEX in indexes && indexes[REFS_INDEX] == Index(REFS, ["workspace_id", "provider", "status"]) &&
            TESTS_INDEX in indexes && indexes[TESTS_INDEX] == Index(TESTS, ["credential_ref_id", "created_at"]) &&
            TESTS_STATUS_INDEX in indexes &&
            indexes[TESTS_STATUS_INDEX] == Index(TESTS, ["workspace_id", "provider", "status"])
  {
    NameLengths(md5);
    var first, second := RefsIndexes(), TestsIndexes();
    assert first[1..] == [] && second[1..] == [second[1]] && second[1..][1..] == [];
  }

  lemma ReferringIndexNames()
    ensures forall t | t in Referring() :: IndexName(t) !in {REFS_INDEX, TESTS_INDEX, TESTS_STATUS_INDEX}
  {
    forall t | t in Referring() ensures IndexName(t) !in {REFS_INDEX, TESTS_INDEX, TESTS_STATUS_INDEX} {
      ReferringNames(t);
      assert |REFS_INDEX| == 53 && |TESTS_INDEX| == 47 && |TESTS_STATUS_INDEX| == 54;
    }
  }

  /** The new tables have three indexes, besides those of their keys. */
  lemma NewIndexes(db: Database, md5: Digest, refs: string, tests: string, testsStatus: string)
    requires Run(db, UpgradeProgram(md5)).Some?
    requires refs == "ix_provider_credential_refs_workspace_provider_status"
    requires tests == "ix_provider_connection_tests_credential_created"
    requires testsStatus == "ix_provider_connection_tests_workspace_provider_status"
    ensures var indexes := Run(db, UpgradeProgram(md5)).value.indexes;
            refs in indexes && tests in indexes && testsStatus in indexes &&
            indexes[refs] == Index("provider_credential_refs", ["workspace_id", "provider", "status"]) &&
            indexes[tests] == Index("provider_connection_tests", ["credential_ref_id", "created_at"]) &&
            indexes[testsStatus] == Index("provider_connection_tests", ["workspace_id", "provider", "status"])
  {
    var middle := InTwoParts(db, md5);
    BlockIndexes(db, md5);
    ReferringIndexNames();
    IndexesWritten(middle, Referring(), "", REFS_INDEX);
    IndexesWritten(middle, Referring(), "", TESTS_INDEX);
    IndexesWritten(middle, Referring(), "", TESTS_STATUS_INDEX);
  }

  lemma RefsChecksHold(md5: Digest, types: set<string>, statuses: set<string>, results: set<string>, row: Row)
    requires types ==
             {"api_key", "bearer_token", "basic_auth", "oauth", "webhook_secret", "adc", "none_required"}
    requires statuses == {"active", "paused", "revoked", "missing", "test_failed"}
    requires results == {"passed", "failed", "skipped", "provider_not_configured"}
    ensures var t := RefsTable(md5);
            (forall c | c in t.checks :: Holds(t.checks[c], row)) <==>
            Holds(OneOf("credential_type", types), row) && Holds(OneOf("status", statuses), row) &&
            Holds(OneOf("last_test_status", results), row)
  {
    var names := [CheckName(REFS, Plain("provider_credential_refs_credential_type_allowed"), md5),
                  CheckName(REFS, Plain("provider_credential_refs_status_allowed"), md5),
                  CheckName(REFS, Plain("provider_credential_refs_last_test_status_allowed"), md5)];
    var list := [OneOf("credential_type", types), OneOf("status", statuses), OneOf("last_test_status", results)];
    assert |"ck_" + REFS + "_"| == 28;
    assert names[0][53] == 'c' && names[1][53] == 's' && names[2][53] == 'l';
    ThreeChecks(names, list, row);
    assert RefsTable(md5).checks == map[names[0] := list[0], names[1] := list[1], names[2] := list[2]];
  }

  lemma ThreeWithin(a: string, b: string, c: string, x: set<string>, y: set<string>, z: set<string>, row: Row)
    requires a in row && b in row && c in row
    ensures Holds(OneOf(a, x), row) && Holds(OneOf(b, y), row) && Holds(OneOf(c, z), row) <==>
            (row[a] == Null || (row[a].Text? && row[a].text in x)) &&
            (row[b] == Null || (row[b].Text? && row[b].text in y)) &&
            (row[c] == Null || (row[c].Text? && row[c].text in z))
  {
  }

  /** All checks of the credentials hold on a row exactly when its type, its status and the result of its last
      test are null or among these. */
  lemma CredentialRows(db: Database, md5: Digest, types: set<string>, statuses: set<string>, results: set<string>,
                       row: Row)
    requires Run(db, UpgradeProgram(md5)).Some?
    requires types ==
             {"api_key", "bearer_token", "basic_auth", "oauth", "webhook_secret", "adc", "none_required"}
    requires statuses == {"active", "paused", "revoked", "missing", "test_failed"}
    requires results == {"passed", "failed", "skipped", "provider_not_configured"}
    requires "credential_type" in row && "status" in row && "last_test_status" in row
    ensures "provider_credential_refs" in Run(db, UpgradeProgram(md5)).value.tables
    ensures var kind, status, result := row["credential_type"], row["status"], row["last_test_status"];
            var t := Run(db, UpgradeProgram(md5)).value.tables["provider_credential_refs"];
            (forall c | c in t.checks :: Holds(t.checks[c], row)) <==>
            (kind == Null || (kind.Text? && kind.text in types)) &&
            (status == Null || (status.Text? && status.text in statuses)) &&
            (result == Null || (result.Text? && result.text in results))
  {
    NewTablesWritten(db, md5);
    RefsChecksHold(md5, types, statuses, results, row);
    ThreeWithin("credential_type", "status", "last_test_status", types, statuses, results, row);
  }

  lemma TestsChecksHold(md5: Digest, types: set<string>, results: set<string>, row: Row)
    requires |TestsTable(md5).checks| == 2
    requires types == {"configuration_only", "mock", "public_endpoint", "authenticated_endpoint"}
    requires results == {"passed", "failed", "skipped", "provider_not_configured"}
    ensures var t := TestsTable(md5);
            (forall c | c in t.checks :: Holds(t.checks[c], row)) <==>
            Holds(OneOf("test_type", types), row) && Holds(OneOf("status", results), row)
  {
    TestsChecksApart(md5);
    var names := [TestTypeCheck(md5), TestStatusCheck(md5)];
    var list := [OneOf("test_type", types), OneOf("status", results)];
    TwoChecks(names, list, row);
    assert TestsTable(md5).checks == map[names[0] := list[0], names[1] := list[1]];
  }

  lemma TwoWithin(a: string, b: string, x: set<string>, y: set<string>, row: Row)
    requires a in row && b in row
    ensures Holds(OneOf(a, x), row) && Holds(OneOf(b, y), row) <==>
            (row[a] == Null || (row[a].Text? && row[a].text in x)) &&
            (row[b] == Null || (row[b].Text? && row[b].text in y))
  {
  }

  /** All checks of the connection tests, when there are two, hold on a row exactly when its type and its result
      are null or among these. */
  lemma ConnectionTestRows(db: Database, md5: Digest, types: set<string>, results: set<string>, row: Row)
    requires Run(db, UpgradeProgram(md5)).Some?
    requires types == {"configuration_only", "mock", "public_endpoint", "authenticated_endpoint"}
    requires results == {"passed", "failed", "skipped", "provider_not_configured"}
    requires "test_type" in row && "status" in row
    ensures "provider_connection_tests" in Run(db, UpgradeProgram(md5)).value.tables
    ensures var kind, status := row["test_type"], row["status"];
            var t := Run(db, UpgradeProgram(md5)).value.tables["provider_connection_tests"];
            |t.checks| == 2 ==>
              ((forall c | c in t.checks :: Holds(t.checks[c], row)) <==>
               (kind == Null || (kind.Text? && kind.text in types)) &&
               (status == Null || (status.Text? && status.text in results)))
  {
    NewTablesWritten(db, md5);
    if |TestsTable(md5).checks| == 2 {
      TestsChecksHold(md5, types, results, row);
      TwoWithin("test_type", "status", types, results, row);
    }
  }

  lemma ValuesOfOne(name: string, key: ForeignKey)
    ensures map[name := key].Values == {key}
  {
    assert map[name := key][name] == key;
  }

  lemma ValuesOfTwo(name: string, key: ForeignKey, name': string, key': ForeignKey)
    requires name != name'
    ensures map[name := key, name' := key'].Values == {key, key'}
  {
    var keys := map[name := key, name' := key'];
    assert keys[name] == key && keys[name'] == key';
  }

  /** The credentials belong to a workspace and go with it. */
  lemma CredentialTable(db: Database, md5: Digest)
    requires Run(db, UpgradeProgram(md5)).Some?
    ensures "provider_credential_refs" in Run(db, UpgradeProgram(md5)).value.tables
    ensures var t := Run(db, UpgradeProgram(md5)).value.tables["provider_credential_refs"];
            t.rows == [] && t.primaryKey == "id" &&
            t.foreignKeys.Values == {ForeignKey("workspace_id", "workspaces", "id", "CASCADE")} &&
            t.columns ==
            [ Column("id", "UUID", false, None), Column("workspace_id", "UUID", false, None),
              Column("name", "VARCHAR(160)", false, None), Column("provider", "VARCHAR(64)", false, None),
              Column("credential_type", "VARCHAR(32)", false, None), Column("status", "VARCHAR(32)", false, None),
              Column("secret_ref", "VARCHAR(255)", true, None),
              Column("public_metadata_json", "JSONB", false, Some(Text("{}"))),
              Column("last_test_status", "VARCHAR(32)", true, None),
              Column("last_tested_at", "TIMESTAMPTZ", true, None), Column("last_error_message", "TEXT", true, None),
              Column("created_at", "TIMESTAMPTZ", false, Some(Text("now()"))),
              Column("updated_at", "TIMESTAMPTZ", false, Some(Text("now()"))),
              Column("rotated_at", "TIMESTAMPTZ", true, None) ]
  {
    NewTablesWritten(db, md5);
    ValuesOfOne(ForeignKeyName(REFS, "workspace_id", "workspaces", md5),
      ForeignKey("workspace_id", "workspaces", "id", "CASCADE"));
  }

  lemma TestsKeysApart(md5: Digest)
    ensures ForeignKeyName(TESTS, "credential_ref_id", REFS, md5) !=
            ForeignKeyName(TESTS, "workspace_id", "workspaces", md5)
  {
    assert |"fk_" + TESTS + "_"| == 29;
    assert ForeignKeyName(TESTS, "credential_ref_id", REFS, md5)[29] == 'c';
    assert ForeignKeyName(TESTS, "workspace_id", "workspaces", md5)[29] == 'w';
  }

  /** The connection tests go with their workspace, but outlive the credential they were made with. */
  lemma ConnectionTestTable(db: Database, md5: Digest)
    requires Run(db, UpgradeProgram(md5)).Some?
    ensures "provider_connection_tests" in Run(db, UpgradeProgram(md5)).value.tables
    ensures var t := Run(db, UpgradeProgram(md5)).value.tables["provider_connection_tests"];
            t.rows == [] && t.primaryKey == "id" &&
            t.foreignKeys.Values ==
            { ForeignKey("credential_ref_id", "provider_credential_refs", "id", "SET NULL"),
              ForeignKey("workspace_id", "workspaces", "id", "CASCADE") } &&
            t.columns ==
            [ Column("id", "UUID", false, None), Column("workspace_id", "UUID", false, None),
              Column("credential_ref_id", "UUID", true, None), Column("provider", "VARCHAR(64)", false, None),
              Column("test_type", "VARCHAR(40)", false, None), Column("status", "VARCHAR(32)", false, None),
              Column("request_metadata_json", "JSONB", false, Some(Text("{}"))),
              Column("response_metadata_json", "JSONB", false, Some(Text("{}"))),
              Column("error_message", "TEXT", true, None),
              Column("created_at", "TIMESTAMPTZ", false, Some(Text("now()"))) ]
  {
    NewTablesWritten(db, md5);
    TestsKeysApart(md5);
    ValuesOfTwo(ForeignKeyName(TESTS, "credential_ref_id", REFS, md5),
      ForeignKey("credential_ref_id", REFS, "id", "SET NULL"),
      ForeignKeyName(TESTS, "workspace_id", "workspaces", md5),
      ForeignKey("workspace_id", "workspaces", "id", "CASCADE"));
  }
}
