/** On which databases the credential-reference upgrade succeeds. */
module CredentialRefsReady {
  import opened Wrappers
  import opened Naming
  import opened Schema
  import opened SchemaReady
  import opened CredentialRefs

  // ---------------------------------------------------------------- the references

  /** The table can take the reference column. */
  predicate Ready(db: Database, table: string) {
    ReferenceReady(db, table, REF_COLUMN, KeyName(table), IndexName(table))
  }

  function WithRef(db: Database, table: string): Database
    requires table in db.tables
  {
    WithReference(db, table, REF_COLUMN, REFS, KeyName(table), IndexName(table))
  }

  /** Adding the reference succeeds exactly when the table exists and the names it needs are free. */
  lemma AddRefSucceedsExactly(db: Database, table: string)
    requires KeyedTable(db, REFS)
    ensures Run(db, AddRef(table)) == if Ready(db, table) then Some(WithRef(db, table)) else None
  {
    ReferenceSucceedsExactly(db, table, REF_COLUMN, REFS, KeyName(table), IndexName(table));
    assert AddRef(table) == AddReference(table, REF_COLUMN, REFS, KeyName(table), IndexName(table));
  }

  lemma IndexNamesDiffer(s: string, t: string)
    requires s != t
    ensures IndexName(s) != IndexName(t)
  {
    assert s == IndexName(s)[3..|s| + 3] && t == IndexName(t)[3..|t| + 3];
  }

  lemma OthersStayReady(db: Database, table: string, other: string)
    requires table in db.tables && other != table
    ensures Ready(WithRef(db, table), other) <==> Ready(db, other)
  {
    IndexNamesDiffer(table, other);
  }

  predicate Distinct(tables: seq<string>) {
    forall i, j | 0 <= i < j < |tables| :: tables[i] != tables[j]
  }

  predicate AllReady(db: Database, tables: seq<string>) {
    forall t | t in tables :: Ready(db, t)
  }

  lemma AllOthersStayReady(db: Database, first: string, others: seq<string>)
    requires first in db.tables && first !in others && KeyedTable(db, REFS)
    ensures KeyedTable(WithRef(db, first), REFS)
    ensures AllReady(WithRef(db, first), others) <==> AllReady(db, others)
  {
    forall t | t in others ensures Ready(WithRef(db, first), t) <==> Ready(db, t) {
      OthersStayReady(db, first, t);
    }
  }

  lemma {:induction false} AddRefsSucceedExactly(db: Database, tables: seq<string>)
    requires KeyedTable(db, REFS) && Distinct(tables)
    ensures Run(db, AddRefs(tables)).Some? <==> AllReady(db, tables)
    decreases |tables|
  {
    if tables == [] {
    } else {
      var first, others := tables[0], tables[1..];
      assert tables == [first] + others;
      AddRefsStep(db, first, others);
      AddRefSucceedsExactly(db, first);
      if Ready(db, first) {
        AllOthersStayReady(db, first, others);
        AddRefsSucceedExactly(WithRef(db, first), others);
      }
    }
  }

  // ---------------------------------------------------------------- the two tables

  function RefsIndexes(): seq<NewIndex> {
    [NewIndex(REFS_INDEX, ["workspace_id", "provider", "status"])]
  }

  function TestsIndexes(): seq<NewIndex> {
    [ NewIndex(TESTS_INDEX, ["credential_ref_id", "created_at"]),
      NewIndex(TESTS_STATUS_INDEX, ["workspace_id", "provider", "status"]) ]
  }

  lemma CreateTablesInBlocks(refs: Table, tests: Table)
    ensures CreateTables(refs, tests)
         == CreateBlock(REFS, refs, RefsIndexes()) + CreateBlock(TESTS, tests, TestsIndexes())
  {
    var first, second := RefsIndexes(), TestsIndexes();
    assert first[1..] == [] && second[1..] == [second[1]] && second[1..][1..] == [];
    assert CreateIndexes(TESTS, second[1..]) == [CreateIndex(TESTS_STATUS_INDEX, TESTS, second[1].columns)];
  }

  /** The names that the tables take have different lengths. */
  lemma NameLengths(md5: Digest)
    ensures |REFS| == 24 && |TESTS| == 25
    ensures |PrimaryKeyName(REFS, md5)| == 27 && |PrimaryKeyName(TESTS, md5)| == 28
    ensures |REFS_INDEX| == 53 && |TESTS_INDEX| == 47 && |TESTS_STATUS_INDEX| == 54
  {
  }

  /** Names of the three kinds of constraints begin differently. */
  lemma KindsDiffer(table: string, given: string, column: string, refTable: string, md5: Digest)
    ensures CheckName(table, Plain(given), md5)[..1] == "c"
    ensures ForeignKeyName(table, column, refTable, md5)[..1] == "f"
    ensures PrimaryKeyName(table, md5)[..1] == "p"
  {
  }

  lemma RefsColumnsDistinct()
    ensures DistinctNames(RefsColumns())
  {
    var c := RefsColumns();
    var codes := [2305, 12330, 4308, 8340, 15314, 6346, 10318, 20339, 16320, 14321, 18306, 10329, 10345, 10341];
    assert Code(c[0].name) == codes[0];
    assert Code(c[1].name) == codes[1];
    assert Code(c[2].name) == codes[2];
    assert Code(c[3].name) == codes[3];
    assert Code(c[4].name) == codes[4];
    assert Code(c[5].name) == codes[5];
    assert Code(c[6].name) == codes[6];
    assert Code(c[7].name) == codes[7];
    assert Code(c[8].name) == codes[8];
    assert Code(c[9].name) == codes[9];
    assert Code(c[10].name) == codes[10];
    assert Code(c[11].name) == codes[11];
    assert Code(c[12].name) == codes[12];
    assert Code(c[13].name) == codes[13];
    DistinctByCode(c, codes);
  }

  lemma RefsNames()
    ensures var names := Names(RefsColumns());
            "id" in names && "workspace_id" in names && "provider" in names && "credential_type" in names &&
            "status" in names && "last_test_status" in names
  {
    var columns := RefsColumns();
    NamesAt(columns, 0);
    NamesAt(columns, 1);
    NamesAt(columns, 3);
    NamesAt(columns, 4);
    NamesAt(columns, 5);
    NamesAt(columns, 8);
  }

  lemma RefsConstraintNames(md5: Digest)
    ensures ConstraintNamesOk(RefsTable(md5))
  {
    KindsDiffer(REFS, "provider_credential_refs_credential_type_allowed", "workspace_id", "workspaces", md5);
    KindsDiffer(REFS, "provider_credential_refs_status_allowed", "workspace_id", "workspaces", md5);
    KindsDiffer(REFS, "provider_credential_refs_last_test_status_allowed", "workspace_id", "workspaces", md5);
  }

  lemma RefsTableOk(md5: Digest)
    ensures TableOk(RefsTable(md5))
  {
    RefsColumnsDistinct();
    RefsNames();
    RefsConstraintNames(md5);
  }

  lemma RefsBlockFits(md5: Digest)
    ensures BlockFits(REFS, RefsTable(md5), RefsIndexes())
  {
    RefsTableOk(md5);
    RefsIndexesFit(RefsTable(md5));
    RefsNamesDiffer(md5);
    RefsTargets(md5);
  }

  lemma RefsIndexesFit(t: Table)
    requires t.columns == RefsColumns()
    ensures IndexesFitTable(t, RefsIndexes())
  {
    RefsNames();
  }

  lemma RefsNamesDiffer(md5: Digest)
    ensures var key := PrimaryKeyName(REFS, md5);
            key != REFS && !Among(REFS, RefsIndexes()) && !Among(key, RefsIndexes())
  {
    NameLengths(md5);
  }

  lemma RefsTargets(md5: Digest)
    ensures forall k | k in RefsTable(md5).foreignKeys ::
              RefsTable(md5).foreignKeys[k].refColumn == "id" && RefsTable(md5).foreignKeys[k].refTable != REFS
  {
    assert |REFS| in {24, 25} && |"workspaces"| == 10;
  }

  lemma TestsColumnsDistinct()
    ensures DistinctNames(TestsColumns())
  {
    var c := TestsColumns();
    var codes := [2305, 12330, 17313, 8340, 9318, 6346, 21325, 22325, 13316, 10329];
    assert Code(c[0].name) == codes[0];
    assert Code(c[1].name) == codes[1];
    assert Code(c[2].name) == codes[2];
    assert Code(c[3].name) == codes[3];
    assert Code(c[4].name) == codes[4];
    assert Code(c[5].name) == codes[5];
    assert Code(c[6].name) == codes[6];
    assert Code(c[7].name) == codes[7];
    assert Code(c[8].name) == codes[8];
    assert Code(c[9].name) == codes[9];
    DistinctByCode(c, codes);
  }

  lemma TestsNames()
    ensures var names := Names(TestsColumns());
            "id" in names && "workspace_id" in names && "credential_ref_id" in names && "provider" in names &&
            "test_type" in names && "status" in names && "created_at" in names
  {
    var columns := TestsColumns();
    NamesAt(columns, 0);
    NamesAt(columns, 1);
    NamesAt(columns, 2);
    NamesAt(columns, 3);
    NamesAt(columns, 4);
    NamesAt(columns, 5);
    NamesAt(columns, 9);
  }

  lemma TestsConstraintNames(md5: Digest)
    ensures ConstraintNamesOk(TestsTable(md5))
  {
    KindsDiffer(TESTS, "provider_connection_tests_test_type_allowed", "credential_ref_id", REFS, md5);
    KindsDiffer(TESTS, "provider_connection_tests_status_allowed", "workspace_id", "workspaces", md5);
  }

  /** The names of the first table's checks are different ones. */
  lemma RefsChecksApart(md5: Digest)
    ensures |RefsTable(md5).checks| == 3
  {
    assert |"ck_" + REFS + "_"| == 28;
    var first := CheckName(REFS, Plain("provider_credential_refs_credential_type_allowed"), md5);
    var second := CheckName(REFS, Plain("provider_credential_refs_status_allowed"), md5);
    var third := CheckName(REFS, Plain("provider_credential_refs_last_test_status_allowed"), md5);
    assert first[53] == 'c' && second[53] == 's' && third[53] == 'l';
  }

  /** For those of the second table that depends on the digest. */
  lemma TestsChecksApart(md5: Digest)
    ensures |TestsTable(md5).checks| == 2 <==> TellsApart(md5)
  {
  }

  lemma TestsTableOk(md5: Digest)
    ensures TableOk(TestsTable(md5))
  {
    TestsColumnsDistinct();
    TestsNames();
    TestsConstraintNames(md5);
  }

  lemma TestsBlockFits(md5: Digest)
    ensures BlockFits(TESTS, TestsTable(md5), TestsIndexes())
  {
    TestsTableOk(md5);
    TestsNames();
    TestsIndexesFit(TestsTable(md5));
    TestsNamesDiffer(md5);
    TestsTargets(md5);
  }

  lemma TestsIndexesFit(t: Table)
    requires var names := Names(t.columns);
             "workspace_id" in names && "credential_ref_id" in names && "provider" in names && "status" in names &&
             "created_at" in names
    ensures IndexesFitTable(t, TestsIndexes())
  {
    assert |TESTS_INDEX| == 47 && |TESTS_STATUS_INDEX| == 54;
  }

  lemma TestsNamesDiffer(md5: Digest)
    ensures var key := PrimaryKeyName(TESTS, md5);
            key != TESTS && !Among(TESTS, TestsIndexes()) && !Among(key, TestsIndexes())
  {
    NameLengths(md5);
  }

  lemma TestsTargets(md5: Digest)
    ensures forall k | k in TestsTable(md5).foreignKeys ::
              TestsTable(md5).foreignKeys[k].refColumn == "id" && TestsTable(md5).foreignKeys[k].refTable != TESTS
  {
    assert |TESTS| in {24, 25} && |"workspaces"| == 10;
  }

  // ---------------------------------------------------------------- both tables together

  /** The names the two tables, their keys and their indexes take are free, and workspaces exist. */
  predicate TablesReady(db: Database, md5: Digest) {
    FreeName(db, REFS) && FreeName(db, PrimaryKeyName(REFS, md5)) && FreeName(db, REFS_INDEX) &&
    FreeName(db, TESTS) && FreeName(db, PrimaryKeyName(TESTS, md5)) && FreeName(db, TESTS_INDEX) &&
    FreeName(db, TESTS_STATUS_INDEX) && KeyedTable(db, "workspaces")
  }

  function AfterRefs(db: Database, md5: Digest): Database {
    WithBlock(db, REFS, RefsTable(md5), RefsIndexes())
  }

  function AfterTables(db: Database, md5: Digest): Database {
    WithBlock(AfterRefs(db, md5), TESTS, TestsTable(md5), TestsIndexes())
  }

  lemma RefsReadyExactly(db: Database, md5: Digest)
    ensures BlockReady(db, REFS, RefsTable(md5), RefsIndexes()) <==>
            FreeName(db, REFS) && FreeName(db, PrimaryKeyName(REFS, md5)) && FreeName(db, REFS_INDEX) &&
            KeyedTable(db, "workspaces")
  {
    var indexes, key := RefsIndexes(), ForeignKeyName(REFS, "workspace_id", "workspaces", md5);
    assert indexes[0] in indexes;
    assert key in RefsTable(md5).foreignKeys && RefsTable(md5).foreignKeys[key].refTable == "workspaces";
  }

  lemma TestsReadyExactly(db: Database, md5: Digest)
    requires KeyedTable(db, REFS)
    ensures BlockReady(db, TESTS, TestsTable(md5), TestsIndexes()) <==>
            FreeName(db, TESTS) && FreeName(db, PrimaryKeyName(TESTS, md5)) && FreeName(db, TESTS_INDEX) &&
            FreeName(db, TESTS_STATUS_INDEX) && KeyedTable(db, "workspaces")
  {
    var indexes, key := TestsIndexes(), ForeignKeyName(TESTS, "workspace_id", "workspaces", md5);
    assert indexes[0] in indexes && indexes[1] in indexes;
    assert key in TestsTable(md5).foreignKeys && TestsTable(md5).foreignKeys[key].refTable == "workspaces";
  }

  lemma StillFree(db: Database, name: string, md5: Digest)
    requires |name| !in {24, 27, 53}
    ensures FreeName(AfterRefs(db, md5), name) <==> FreeName(db, name)
    ensures KeyedTable(AfterRefs(db, md5), name) <==> KeyedTable(db, name)
  {
    AfterBlock(db, REFS, RefsTable(md5), RefsIndexes(), name);
    NameLengths(md5);
  }

  lemma StillReady(db: Database, md5: Digest)
    ensures KeyedTable(AfterRefs(db, md5), REFS)
    ensures BlockReady(AfterRefs(db, md5), TESTS, TestsTable(md5), TestsIndexes()) <==>
            FreeName(db, TESTS) && FreeName(db, PrimaryKeyName(TESTS, md5)) && FreeName(db, TESTS_INDEX) &&
            FreeName(db, TESTS_STATUS_INDEX) && KeyedTable(db, "workspaces")
  {
    AfterBlock(db, REFS, RefsTable(md5), RefsIndexes(), REFS);
    TestsReadyExactly(AfterRefs(db, md5), md5);
    NameLengths(md5);
    StillFree(db, TESTS, md5);
    StillFree(db, PrimaryKeyName(TESTS, md5), md5);
    StillFree(db, TESTS_INDEX, md5);
    StillFree(db, TESTS_STATUS_INDEX, md5);
    StillFree(db, "workspaces", md5);
  }

  lemma CreateTablesSucceedExactly(db: Database, md5: Digest)
    ensures Run(db, CreateTables(RefsTable(md5), TestsTable(md5))) ==
            if TablesReady(db, md5) then Some(AfterTables(db, md5)) else None
  {
    var refs, tests := RefsTable(md5), TestsTable(md5);
    RefsBlockFits(md5);
    TestsBlockFits(md5);
    CreateTablesInBlocks(refs, tests);
    RunAppend(db, CreateBlock(REFS, refs, RefsIndexes()), CreateBlock(TESTS, tests, TestsIndexes()));
    BlockSucceedsExactly(db, REFS, refs, RefsIndexes());
    BlockSucceedsExactly(AfterRefs(db, md5), TESTS, tests, TestsIndexes());
    RefsReadyExactly(db, md5);
    StillReady(db, md5);
  }

  // ---------------------------------------------------------------- the whole upgrade

  /** Workspaces exist, the names the upgrade creates are free, and every referring table can take its
      column. */
  predicate UpgradeReady(db: Database, md5: Digest) {
    TablesReady(db, md5) && AllReady(db, Referring())
  }

  lemma ReferringNames(table: string)
    requires table in Referring()
    ensures table !in {REFS, TESTS} && |IndexName(table)| in {33, 42, 44, 46}
  {
    assert |IndexName(table)| == |table| + 21 && |table| in {12, 21, 23, 25};
    assert |REFS| == 24;
    assert table != TESTS by {
      assert |table| == 25 ==> table == "provider_polling_requests";
    }
  }

  lemma ReadyAfterTables(db: Database, table: string, md5: Digest)
    requires table in Referring()
    ensures Ready(AfterTables(db, md5), table) <==> Ready(db, table)
  {
    var refs, tests := RefsTable(md5), TestsTable(md5);
    ReferringNames(table);
    NameLengths(md5);
    AfterBlock(db, REFS, refs, RefsIndexes(), IndexName(table));
    AfterBlock(AfterRefs(db, md5), TESTS, tests, TestsIndexes(), IndexName(table));
  }

  lemma ReferringDistinct()
    ensures Distinct(Referring())
  {
  }

  lemma AddRefsAfterTables(db: Database, md5: Digest)
    ensures Run(AfterTables(db, md5), AddRefs(Referring())).Some? <==> AllReady(db, Referring())
  {
    AfterBlock(db, REFS, RefsTable(md5), RefsIndexes(), REFS);
    AfterBlock(AfterRefs(db, md5), TESTS, TestsTable(md5), TestsIndexes(), REFS);
    ReferringDistinct();
    AddRefsSucceedExactly(AfterTables(db, md5), Referring());
    forall t | t in Referring() ensures Ready(AfterTables(db, md5), t) <==> Ready(db, t) {
      ReadyAfterTables(db, t, md5);
    }
  }

  /** The upgrade succeeds exactly on the databases that are ready for it. */
  lemma UpgradeSucceedsExactly(db: Database, md5: Digest)
    requires TellsApart(md5)
    ensures Run(db, UpgradeProgram(md5)).Some? <==> UpgradeReady(db, md5)
  {
    RunAppend(db, CreateTables(RefsTable(md5), TestsTable(md5)), AddRefs(Referring()));
    CreateTablesSucceedExactly(db, md5);
    if TablesReady(db, md5) {
      AddRefsAfterTables(db, md5);
    }
  }

  // ---------------------------------------------------------------- a database it succeeds on

  /** Workspaces and the tables that get a reference. */
  function Needed(): seq<string> {
    ["workspaces"] + Referring()
  }

  lemma NeededPlain()
    ensures PlainNames(Needed()) && REFS !in Needed() && TESTS !in Needed() && PlainName(REFS) && PlainName(TESTS)
  {
    ReferringDistinct();
    forall n | n in Needed() ensures PlainName(n) && n != REFS && n != TESTS {
      if n in Referring() {
        ReferringNames(n);
      }
    }
  }

  lemma PlainReady(table: string)
    requires table in Referring()
    ensures Ready(PlainDatabase(Needed()), table)
  {
    NeededPlain();
    ReferringNames(table);
    assert |REF_COLUMN| == 17;
    PlainTakesReference(Needed(), table, REF_COLUMN, KeyName(table), IndexName(table));
  }

  lemma PlainTablesReady(md5: Digest)
    ensures TablesReady(PlainDatabase(Needed()), md5)
  {
    NeededPlain();
    NameLengths(md5);
    PlainFree(Needed(), REFS);
    PlainFree(Needed(), TESTS);
    OtherFree(Needed(), REFS_INDEX);
    OtherFree(Needed(), TESTS_INDEX);
    OtherFree(Needed(), TESTS_STATUS_INDEX);
    PlainContents(Needed(), "workspaces");
  }

  /** There are consistent databases that the upgrade succeeds on: that of just the needed tables. */
  lemma NeededTablesSuffice(md5: Digest)
    requires TellsApart(md5)
    ensures Wf(PlainDatabase(Needed())) && Run(PlainDatabase(Needed()), UpgradeProgram(md5)).Some?
  {
    NeededPlain();
    PlainDatabaseWf(Needed());
    PlainTablesReady(md5);
    forall t | t in Referring() ensures Ready(PlainDatabase(Needed()), t) {
      PlainReady(t);
    }
    UpgradeSucceedsExactly(PlainDatabase(Needed()), md5);
  }
}
