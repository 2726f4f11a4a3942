/** The migration that adds provider credential references. */
module CredentialRefs {
  import opened Wrappers
  import opened Naming
  import opened Schema
  import opened SchemaUndo
  import opened SchemaShape
  import opened Migrations

  const REFS := "provider_credential_refs"
  const TESTS := "provider_connection_tests"
  const REF_COLUMN := "credential_ref_id"

  /** The names of the indexes of the two tables. */
  const REFS_INDEX := "ix_provider_credential_refs_workspace_provider_status"
  const TESTS_INDEX := "ix_provider_connection_tests_credential_created"
  const TESTS_STATUS_INDEX := "ix_provider_connection_tests_workspace_provider_status"

  function RefsColumns(): seq<Column> {
    [ Required("id", "UUID"),
      Required("workspace_id", "UUID"),
      Required("name", "VARCHAR(160)"),
      Required("provider", "VARCHAR(64)"),
      Required("credential_type", "VARCHAR(32)"),
      Required("status", "VARCHAR(32)"),
      Optional("secret_ref", "VARCHAR(255)"),
      Defaulted("public_metadata_json", "JSONB", Text("{}")),
      Optional("last_test_status", "VARCHAR(32)"),
      Optional("last_tested_at", "TIMESTAMPTZ"),
      Optional("last_error_message", "TEXT"),
      Defaulted("created_at", "TIMESTAMPTZ", Text("now()")),
      Defaulted("updated_at", "TIMESTAMPTZ", Text("now()")),
      Optional("rotated_at", "TIMESTAMPTZ") ]
  }

  /** The keys and the checks are named by the convention. */
  function RefsTable(md5: Digest): Table {
    Table(
      RefsColumns(),
      "id",
      PrimaryKeyName(REFS, md5),
      map[
        CheckName(REFS, Plain("provider_credential_refs_credential_type_allowed"), md5) :=
          OneOf("credential_type",
                {"api_key", "bearer_token", "basic_auth", "oauth", "webhook_secret", "adc", "none_required"}),
        CheckName(REFS, Plain("provider_credential_refs_status_allowed"), md5) :=
          OneOf("status", {"active", "paused", "revoked", "missing", "test_failed"}),
        CheckName(REFS, Plain("provider_credential_refs_last_test_status_allowed"), md5) :=
          OneOf("last_test_status", {"passed", "failed", "skipped", "provider_not_configured"}) ],
      map[
        ForeignKeyName(REFS, "workspace_id", "workspaces", md5) :=
          ForeignKey("workspace_id", "workspaces", "id", "CASCADE") ],
      [])
  }

  function TestTypeCheck(md5: Digest): string {
    CheckName(TESTS, Plain("provider_connection_tests_test_type_allowed"), md5)
  }

  function TestStatusCheck(md5: Digest): string {
    CheckName(TESTS, Plain("provider_connection_tests_status_allowed"), md5)
  }

  /** Both names of checks are too long and agree in the characters that are kept. A digest that did not
      tell them apart would make the statement fail. */
  predicate TellsApart(md5: Digest) {
    TestTypeCheck(md5) != TestStatusCheck(md5)
  }

  function TestsColumns(): seq<Column> {
    [ Required("id", "UUID"),
      Required("workspace_id", "UUID"),
      Optional("credential_ref_id", "UUID"),
      Required("provider", "VARCHAR(64)"),
      Required("test_type", "VARCHAR(40)"),
      Required("status", "VARCHAR(32)"),
      Defaulted("request_metadata_json", "JSONB", Text("{}")),
      Defaulted("response_metadata_json", "JSONB", Text("{}")),
      Optional("error_message", "TEXT"),
      Defaulted("created_at", "TIMESTAMPTZ", Text("now()")) ]
  }

  function TestsTable(md5: Digest): Table {
    Table(
      TestsColumns(),
      "id",
      PrimaryKeyName(TESTS, md5),
      map[
        TestTypeCheck(md5) :=
          OneOf("test_type", {"configuration_only", "mock", "public_endpoint", "authenticated_endpoint"}),
        TestStatusCheck(md5) :=
          OneOf("status", {"passed", "failed", "skipped", "provider_not_configured"}) ],
      map[
        ForeignKeyName(TESTS, "credential_ref_id", REFS, md5) :=
          ForeignKey("credential_ref_id", REFS, "id", "SET NULL"),
        ForeignKeyName(TESTS, "workspace_id", "workspaces", md5) :=
          ForeignKey("workspace_id", "workspaces", "id", "CASCADE") ],
      [])
  }

  /** The two tables with their indexes, whatever their columns and constraints are. */
  function CreateTables(refs: Table, tests: Table): seq<Op> {
    [ CreateTable(REFS, refs),
      CreateIndex(REFS_INDEX, REFS, ["workspace_id", "provider", "status"]),
      CreateTable(TESTS, tests),
      CreateIndex(TESTS_INDEX, TESTS, ["credential_ref_id", "created_at"]),
      CreateIndex(TESTS_STATUS_INDEX, TESTS, ["workspace_id", "provider", "status"]) ]
  }

  function DropTables(): seq<Op> {
    [ DropIndex(TESTS_STATUS_INDEX, TESTS),
      DropIndex(TESTS_INDEX, TESTS),
      DropTable(TESTS),
      DropIndex(REFS_INDEX, REFS),
      DropTable(REFS) ]
  }

  function KeyName(table: string): string {
    "fk_" + table + "_credential_ref_id"
  }

  function IndexName(table: string): string {
    "ix_" + table + "_credential_ref_id"
  }

  function AddRef(table: string): seq<Op> {
    [ AddColumn(table, Optional(REF_COLUMN, "UUID")),
      CreateForeignKey(KeyName(table), table, ForeignKey(REF_COLUMN, REFS, "id", "SET NULL")),
      CreateIndex(IndexName(table), table, [REF_COLUMN]) ]
  }

  function DropRef(table: string): seq<Op> {
    [ DropIndex(IndexName(table), table),
      DropForeignKey(KeyName(table), table),
      DropColumn(table, REF_COLUMN) ]
  }

  function AddRefs(tables: seq<string>): seq<Op> {
    if tables == [] then [] else AddRef(tables[0]) + AddRefs(tables[1..])
  }

  function DropRefs(tables: seq<string>): seq<Op> {
    if tables == [] then [] else DropRef(tables[0]) + DropRefs(tables[1..])
  }

  /** The tables that get a reference, and the order in which they lose it. */
  function Referring(): seq<string> {
    [ "data_sources", "live_feed_subscriptions", "provider_polling_requests", "notification_channels",
      "webhook_subscriptions" ]
  }

  function Reverse(tables: seq<string>): seq<string> {
    if tables == [] then [] else Reverse(tables[1..]) + [tables[0]]
  }

  function UpgradeProgram(md5: Digest): seq<Op> {
    CreateTables(RefsTable(md5), TestsTable(md5)) + AddRefs(Referring())
  }

  function DowngradeProgram(): seq<Op> {
    DropRefs(Reverse(Referring())) + DropTables()
  }

  // ---------------------------------------------------------------- the migration

  method AddNullableCredentialRef(op: Operations, table: string) returns (r: Outcome)
    modifies op
    ensures op.Followed(old(op.database), AddRef(table), r)
  {
    ghost var program := AddRef(table);
    RunStep(op.database, program[0], program[1..]);
    :- op.Execute(AddColumn(table, Optional(REF_COLUMN, "UUID")));
    RunStep(op.database, program[1], program[2..]);
    :- op.Execute(CreateForeignKey(KeyName(table), table, ForeignKey(REF_COLUMN, REFS, "id", "SET NULL")));
    RunStep(op.database, program[2], []);
    :- op.Execute(CreateIndex(IndexName(table), table, [REF_COLUMN]));
    return Pass;
  }

  method DropNullableCredentialRef(op: Operations, table: string) returns (r: Outcome)
    modifies op
    ensures op.Followed(old(op.database), DropRef(table), r)
  {
    ghost var program := DropRef(table);
    RunStep(op.database, program[0], program[1..]);
    :- op.Execute(DropIndex(IndexName(table), table));
    RunStep(op.database, program[1], program[2..]);
    :- op.Execute(DropForeignKey(KeyName(table), table));
    RunStep(op.database, program[2], []);
    :- op.Execute(DropColumn(table, REF_COLUMN));
    return Pass;
  }

  method CreateCredentialTables(op: Operations, refs: Table, tests: Table) returns (r: Outcome)
    modifies op
    ensures op.Followed(old(op.database), CreateTables(refs, tests), r)
  {
    ghost var program := CreateTables(refs, tests);
    RunStep(op.database, program[0], program[1..]);
    :- op.Execute(CreateTable(REFS, refs));
    RunStep(op.database, program[1], program[2..]);
    :- op.Execute(CreateIndex(REFS_INDEX, REFS, ["workspace_id", "provider", "status"]));
    RunStep(op.database, program[2], program[3..]);
    :- op.Execute(CreateTable(TESTS, tests));
    RunStep(op.database, program[3], program[4..]);
    :- op.Execute(CreateIndex(TESTS_INDEX, TESTS, ["credential_ref_id", "created_at"]));
    RunStep(op.database, program[4], []);
    :- op.Execute(CreateIndex(TESTS_STATUS_INDEX, TESTS, ["workspace_id", "provider", "status"]));
    return Pass;
  }

  /** The program for a first table and the others, run from this database. */
  lemma AddRefsStep(db: Database, table: string, others: seq<string>)
    ensures Run(db, AddRefs([table] + others)) ==
            if Run(db, AddRef(table)).None? then None else Run(Run(db, AddRef(table)).value, AddRefs(others))
  {
    assert ([table] + others)[1..] == others;
    RunAppend(db, AddRef(table), AddRefs(others));
  }

  lemma DropRefsStep(db: Database, table: string, others: seq<string>)
    ensures Run(db, DropRefs([table] + others)) ==
            if Run(db, DropRef(table)).None? then None else Run(Run(db, DropRef(table)).value, DropRefs(others))
  {
    assert ([table] + others)[1..] == others;
    RunAppend(db, DropRef(table), DropRefs(others));
  }

  /** One table of the list, from which the program goes on with the others. */
  method AddNext(op: Operations, table: string, ghost others: seq<string>) returns (r: Outcome)
    modifies op
    ensures Run(old(op.database), AddRefs([table] + others)) ==
            if r.Pass? then Run(op.database, AddRefs(others)) else None
  {
    AddRefsStep(op.database, table, others);
    r := AddNullableCredentialRef(op, table);
  }

  /** One table of the list, from which the program goes on with the others. */
  method DropNext(op: Operations, table: string, ghost others: seq<string>) returns (r: Outcome)
    modifies op
    ensures Run(old(op.database), DropRefs([table] + others)) ==
            if r.Pass? then Run(op.database, DropRefs(others)) else None
  {
    DropRefsStep(op.database, table, others);
    r := DropNullableCredentialRef(op, table);
  }

  method AddCredentialRefs(op: Operations) returns (r: Outcome)
    modifies op
    ensures op.Followed(old(op.database), AddRefs(Referring()), r)
  {
    ghost var t := Referring();
    assert [t[0]] + t[1..] == t && [t[1]] + t[2..] == t[1..] && [t[2]] + t[3..] == t[2..];
    assert [t[3]] + t[4..] == t[3..] && [t[4]] + t[5..] == t[4..] && t[5..] == [];
    :- AddNext(op, "data_sources", t[1..]);
    :- AddNext(op, "live_feed_subscriptions", t[2..]);
    :- AddNext(op, "provider_polling_requests", t[3..]);
    :- AddNext(op, "notification_channels", t[4..]);
    :- AddNext(op, "webhook_subscriptions", t[5..]);
    return Pass;
  }

  lemma ReverseReferring()
    ensures Reverse(Referring()) ==
      [ "webhook_subscriptions", "notification_channels", "provider_polling_requests", "live_feed_subscriptions",
        "data_sources" ]
  {
    var t := Referring();
    assert Reverse(t[4..]) == ["webhook_subscriptions"];
    assert Reverse(t[3..]) == Reverse(t[4..]) + [t[3]];
    assert Reverse(t[2..]) == Reverse(t[3..]) + [t[2]];
    assert Reverse(t[1..]) == Reverse(t[2..]) + [t[1]];
  }

  method DropCredentialRefs(op: Operations) returns (r: Outcome)
    modifies op
    ensures op.Followed(old(op.database), DropRefs(Reverse(Referring())), r)
  {
    ReverseReferring();
    ghost var t := Reverse(Referring());
    assert [t[0]] + t[1..] == t && [t[1]] + t[2..] == t[1..] && [t[2]] + t[3..] == t[2..];
    assert [t[3]] + t[4..] == t[3..] && [t[4]] + t[5..] == t[4..] && t[5..] == [];
    :- DropNext(op, "webhook_subscriptions", t[1..]);
    :- DropNext(op, "notification_channels", t[2..]);
    :- DropNext(op, "provider_polling_requests", t[3..]);
    :- DropNext(op, "live_feed_subscriptions", t[4..]);
    :- DropNext(op, "data_sources", t[5..]);
    return Pass;
  }

  method DropCredentialTables(op: Operations) returns (r: Outcome)
    modifies op
    ensures op.Followed(old(op.database), DropTables(), r)
  {
    ghost var program := DropTables();
    RunStep(op.database, program[0], program[1..]);
    :- op.Execute(DropIndex(TESTS_STATUS_INDEX, TESTS));
    RunStep(op.database, program[1], program[2..]);
    :- op.Execute(DropIndex(TESTS_INDEX, TESTS));
    RunStep(op.database, program[2], program[3..]);
    :- op.Execute(DropTable(TESTS));
    RunStep(op.database, program[3], program[4..]);
    :- op.Execute(DropIndex(REFS_INDEX, REFS));
    RunStep(op.database, program[4], []);
    :- op.Execute(DropTable(REFS));
    return Pass;
  }

  /** The statements of the upgrade, in one transaction. */
  method Upgrade(op: Operations, md5: Digest) returns (r: Outcome)
    modifies op
    ensures Run(old(op.database), UpgradeProgram(md5)) == if r.Pass? then Some(op.database) else None
    ensures r.Fail? ==> op.database == old(op.database)
  {
    var before := op.database;
    RunAppend(before, CreateTables(RefsTable(md5), TestsTable(md5)), AddRefs(Referring()));
    r := CreateCredentialTables(op, RefsTable(md5), TestsTable(md5));
    if r.Pass? {
      r := AddCredentialRefs(op);
    }
    if r.Fail? {
      op.database := before;
    }
  }

  method Downgrade(op: Operations) returns (r: Outcome)
    modifies op
    ensures Run(old(op.database), DowngradeProgram()) == if r.Pass? then Some(op.database) else None
    ensures r.Fail? ==> op.database == old(op.database)
  {
    var before := op.database;
    RunAppend(before, DropRefs(Reverse(Referring())), DropTables());
    r := DropCredentialRefs(op);
    if r.Pass? {
      r := DropCredentialTables(op);
    }
    if r.Fail? {
      op.database := before;
    }
  }

  // ---------------------------------------------------------------- the downgrade undoes the upgrade

  lemma UndoOfAddRef(table: string)
    ensures AllCreate(AddRef(table)) && Undo(AddRef(table)) == DropRef(table)
  {
    var program := AddRef(table);
    assert program[1..][1..] == program[2..];
    assert Undo(program[2..]) == [Inverse(program[2])];
    assert Undo(program[1..]) == [Inverse(program[2]), Inverse(program[1])];
  }

  lemma {:induction false} UndoOfAddRefs(tables: seq<string>)
    ensures AllCreate(AddRefs(tables)) && Undo(AddRefs(tables)) == DropRefs(Reverse(tables))
  {
    if tables == [] {
    } else {
      UndoOfAddRef(tables[0]);
      UndoOfAddRefs(tables[1..]);
      UndoAppend(AddRef(tables[0]), AddRefs(tables[1..]));
      DropRefsAppend(Reverse(tables[1..]), tables[0]);
    }
  }

  lemma {:induction false} DropRefsAppend(tables: seq<string>, last: string)
    ensures DropRefs(tables + [last]) == DropRefs(tables) + DropRef(last)
  {
    if tables == [] {
      assert DropRefs([last]) == DropRef(last);
    } else {
      assert (tables + [last])[1..] == tables[1..] + [last];
      DropRefsAppend(tables[1..], last);
    }
  }

  lemma UndoOfCreateTables(refs: Table, tests: Table)
    ensures AllCreate(CreateTables(refs, tests)) && Undo(CreateTables(refs, tests)) == DropTables()
  {
    var program := CreateTables(refs, tests);
    assert program[1..][1..] == program[2..] && program[2..][1..] == program[3..] && program[3..][1..] == program[4..];
    assert Undo(program[4..]) == [Inverse(program[4])];
    assert Undo(program[3..]) == [Inverse(program[4]), Inverse(program[3])];
    assert Undo(program[2..]) == [Inverse(program[4]), Inverse(program[3]), Inverse(program[2])];
    assert Undo(program[1..]) == [Inverse(program[4]), Inverse(program[3]), Inverse(program[2]), Inverse(program[1])];
  }

  /** The downgrade is the reversed program of inverses of the upgrade. */
  lemma DowngradeIsUndo(md5: Digest)
    ensures AllCreate(UpgradeProgram(md5)) && Undo(UpgradeProgram(md5)) == DowngradeProgram()
  {
    UndoOfCreateTables(RefsTable(md5), TestsTable(md5));
    UndoOfAddRefs(Referring());
    UndoAppend(CreateTables(RefsTable(md5), TestsTable(md5)), AddRefs(Referring()));
  }

  /** Wherever the upgrade succeeds, the downgrade then succeeds at every step, whatever was done to
      the rows in between, and brings back the tables, columns, constraints and indexes from before. */
  lemma DowngradeUndoesUpgrade(before: Database, later: Database, md5: Digest)
    requires Wf(before) && Run(before, UpgradeProgram(md5)).Some?
    requires Shape(later) == Shape(Run(before, UpgradeProgram(md5)).value)
    ensures Run(later, DowngradeProgram()).Some? && Shape(Run(later, DowngradeProgram()).value) == Shape(before)
    ensures later == Run(before, UpgradeProgram(md5)).value ==> Run(later, DowngradeProgram()) == Some(before)
  {
    DowngradeIsUndo(md5);
    UndoAfterAnyData(before, UpgradeProgram(md5), later);
    UndoRestores(before, UpgradeProgram(md5));
  }

  lemma {:induction false} SparingDrops(tables: seq<string>, name: string)
    requires name !in tables
    ensures SparedBy(DropRefs(tables), name)
  {
    if tables == [] {
    } else {
      SparingDrops(tables[1..], name);
    }
  }

  lemma SparingTables(name: string)
    requires name != REFS && name != TESTS
    ensures SparedBy(DropTables(), name)
  {
  }

  lemma SparedByBoth(db: Database, first: seq<Op>, second: seq<Op>, name: string)
    requires Run(db, first + second).Some? && name in db.tables
    requires SparedBy(first, name) && SparedBy(second, name)
    ensures name in Run(db, first + second).value.tables
    ensures Run(db, first + second).value.tables[name].rows == db.tables[name].rows
  {
    SparedRows(db, first + second, name);
  }

  /** And the rows of every table the migration did not touch stay as they were. */
  lemma DowngradeSparesOtherRows(later: Database, name: string)
    requires Run(later, DowngradeProgram()).Some? && name in later.tables
    requires name !in Reverse(Referring()) && name != REFS && name != TESTS
    ensures name in Run(later, DowngradeProgram()).value.tables
    ensures Run(later, DowngradeProgram()).value.tables[name].rows == later.tables[name].rows
  {
    SparingDrops(Reverse(Referring()), name);
    SparingTables(name);
    SparedByBoth(later, DropRefs(Reverse(Referring())), DropTables(), name);
  }
}
