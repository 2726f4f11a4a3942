/** The two chart-screenshot migrations: both widen a check, and both rewrite rows before they narrow
    it again. */
module ChartScreenshots {
  import opened Wrappers
  import opened Naming
  import opened Schema
  import opened SchemaUndo
  import opened SchemaShape
  import opened Narrowing
  import opened Migrations

  const RUNS := "chart_screenshot_runs"
  const SOURCES := "data_sources"
  const CANDLES := "candles"
  const RUN_COLUMN := "chart_screenshot_run_id"
  const SOURCE_CHECK := "ck_data_sources_source_type_allowed"
  const CANDLES_KEY := "fk_" + CANDLES + "_" + RUN_COLUMN + "_" + RUNS
  const CANDLES_INDEX := "ix_candles_chart_screenshot_run_id"

  function SourceTypes(): set<string> {
    {"csv_upload", "json_import", "api_polling", "websocket_live", "manual_seed"}
  }

  function Statuses(): set<string> {
    {"received", "parsing", "ingested", "analysis_triggered", "analysis_failed", "failed", "completed"}
  }

  /** A check's name as these migrations write it, table and convention included. */
  function OwnCheck(rest: string): string {
    "ck_" + RUNS + "_" + RUNS + "_" + rest
  }

  /** The first migration marks the name as final. */
  function StatusCheck(md5: Digest): string {
    CheckName(RUNS, Final(OwnCheck("status_allowed")), md5)
  }

  /** The second one does not, so that the convention applies to it once more. */
  function HardeningCheck(md5: Digest): string {
    CheckName(RUNS, Plain(OwnCheck("status_allowed")), md5)
  }

  // ---------------------------------------------------------------- the hardening migration

  function HardeningUpgrade(md5: Digest): seq<Op> {
    Replace(RUNS, HardeningCheck(md5), "status", Statuses() + {"review_required"})
  }

  function HardeningDowngrade(md5: Digest): seq<Op> {
    RewriteAndReplace(RUNS, HardeningCheck(md5), "status", Statuses(), "review_required", "completed")
  }

  method ReplaceCheck(op: Operations, name: string, constraint: string, column: string, allowed: set<string>)
    returns (r: Outcome)
    modifies op
    ensures op.Followed(old(op.database), Replace(name, constraint, column, allowed), r)
  {
    RunStep(op.database, DropCheck(constraint, name), [CreateCheck(constraint, name, OneOf(column, allowed))]);
    :- op.Execute(DropCheck(constraint, name));
    RunStep(op.database, CreateCheck(constraint, name, OneOf(column, allowed)), []);
    :- op.Execute(CreateCheck(constraint, name, OneOf(column, allowed)));
    return Pass;
  }

  method UpgradeHardening(op: Operations, md5: Digest) returns (r: Outcome)
    modifies op
    ensures Run(old(op.database), HardeningUpgrade(md5)) == if r.Pass? then Some(op.database) else None
    ensures r.Fail? ==> op.database == old(op.database)
  {
    var before := op.database;
    r := ReplaceCheck(op, RUNS, HardeningCheck(md5), "status", Statuses() + {"review_required"});
    if r.Fail? {
      op.database := before;
    }
  }

  method DowngradeHardening(op: Operations, md5: Digest) returns (r: Outcome)
    modifies op
    ensures Run(old(op.database), HardeningDowngrade(md5)) == if r.Pass? then Some(op.database) else None
    ensures r.Fail? ==> op.database == old(op.database)
  {
    var before := op.database;
    RunStep(before, Update(RUNS, "status", "review_required", "completed"),
      Replace(RUNS, HardeningCheck(md5), "status", Statuses()));
    r := op.Execute(Update(RUNS, "status", "review_required", "completed"));
    if r.Pass? {
      r := ReplaceCheck(op, RUNS, HardeningCheck(md5), "status", Statuses());
    }
    if r.Fail? {
      op.database := before;
    }
  }

  /** On a table whose statuses are checked under the name the convention makes, the hardening upgrade
      succeeds; and whatever rows come to satisfy the widened check, the downgrade then succeeds and
      brings the earlier shape back. */
  lemma HardeningRoundTrip(before: Database, later: Database, md5: Digest)
    requires Wf(before) && RUNS in before.tables
    requires Allows(before.tables[RUNS], HardeningCheck(md5), "status", Statuses())
    ensures Run(before, HardeningUpgrade(md5)).Some?
    ensures Wf(later) && Shape(later) == Shape(Run(before, HardeningUpgrade(md5)).value) ==>
              RUNS in later.tables &&
              var check := HardeningCheck(md5);
              var end := NarrowedIn(later, RUNS, check, "status", Statuses(), "review_required", "completed");
              Run(later, HardeningDowngrade(md5)) == Some(end) && Shape(end) == Shape(before)
  {
    var check := HardeningCheck(md5);
    Widening(before, RUNS, check, "status", Statuses(), Statuses() + {"review_required"});
    if Wf(later) && Shape(later) == Shape(Run(before, HardeningUpgrade(md5)).value) {
      NarrowingUndoesWidening(before, later, RUNS, check, "status", Statuses(), "review_required", "completed");
    }
  }

  // ---------------------------------------------------------------- the chart-screenshot migration

  /** Whose run it is and where it came from. */
  function OriginColumns(): seq<Column> {
    [ Required("id", "UUID"),
      Required("workspace_id", "UUID"),
      Optional("user_id", "UUID"),
      Required("source_id", "UUID"),
      Required("symbol_id", "UUID"),
      Optional("analysis_run_id", "UUID"),
      Required("timeframe", "VARCHAR(16)"),
      Optional("file_name", "VARCHAR(255)"),
      Required("parser_name", "VARCHAR(80)"),
      Required("parser_version", "VARCHAR(32)"),
      Optional("parser_source_path", "VARCHAR(255)") ]
  }

  /** What was read off the picture. */
  function ResultColumns(): seq<Column> {
    [ Required("status", "VARCHAR(32)"),
      Defaulted("extraction_confidence", "NUMERIC(5, 4)", Number(0.0)),
      Defaulted("raw_candle_count", "INTEGER", Number(0.0)),
      Defaulted("stored_candle_count", "INTEGER", Number(0.0)),
      Defaulted("duplicate_count", "INTEGER", Number(0.0)),
      Defaulted("conflict_count", "INTEGER", Number(0.0)),
      Required("analysis_hypothesis", "VARCHAR(16)"),
      Optional("analysis_hypothesis_confidence", "NUMERIC(5, 4)") ]
  }

  /** The rest. */
  function DetailColumns(): seq<Column> {
    [ Optional("extracted_window_start", "TIMESTAMPTZ"),
      Optional("extracted_window_end", "TIMESTAMPTZ"),
      Optional("extracted_payload_json", "JSONB"),
      Defaulted("extraction_warnings_json", "JSONB", Text("{}")),
      Defaulted("parser_metadata_json", "JSONB", Text("{}")),
      Optional("last_error_code", "VARCHAR(64)"),
      Optional("last_error_message", "VARCHAR(500)"),
      Defaulted("created_at", "TIMESTAMPTZ", Text("now()")),
      Defaulted("updated_at", "TIMESTAMPTZ", Text("now()")),
      Optional("started_at", "TIMESTAMPTZ"),
      Optional("completed_at", "TIMESTAMPTZ") ]
  }

  function RunsColumns(): seq<Column> {
    OriginColumns() + ResultColumns() + DetailColumns()
  }

  function RunsChecks(md5: Digest): map<string, Check> {
    map[
      StatusCheck(md5) := OneOf("status", Statuses()),
      CheckName(RUNS, Final(OwnCheck("analysis_hypothesis_allowed")), md5) :=
        OneOf("analysis_hypothesis", {"bullish", "bearish", "neutral", "unclear", "unknown"}),
      CheckName(RUNS, Final(OwnCheck("extraction_confidence_range")), md5) :=
        Between("extraction_confidence", 0.0, 1.0),
      CheckName(RUNS, Final(OwnCheck("hypothesis_confidence_range")), md5) :=
        Between("analysis_hypothesis_confidence", 0.0, 1.0),
      CheckName(RUNS, Final(OwnCheck("raw_count_non_negative")), md5) := AtLeast("raw_candle_count", 0.0),
      CheckName(RUNS, Final(OwnCheck("stored_count_non_negative")), md5) := AtLeast("stored_candle_count", 0.0),
      CheckName(RUNS, Final(OwnCheck("duplicate_count_non_negative")), md5) := AtLeast("duplicate_count", 0.0),
      CheckName(RUNS, Final(OwnCheck("conflict_count_non_negative")), md5) := AtLeast("conflict_count", 0.0) ]
  }

  /** The name of one of the table's foreign keys, as the migration writes it. */
  function OwnKey(column: string, refTable: string): string {
    "fk_" + RUNS + "_" + column + "_" + refTable
  }

  function RunsKeys(): map<string, ForeignKey> {
    map[
      OwnKey("analysis_run_id", "analysis_runs") := ForeignKey("analysis_run_id", "analysis_runs", "id", "SET NULL"),
      OwnKey("source_id", SOURCES) := ForeignKey("source_id", SOURCES, "id", "RESTRICT"),
      OwnKey("symbol_id", "symbols") := ForeignKey("symbol_id", "symbols", "id", "RESTRICT"),
      OwnKey("user_id", "users") := ForeignKey("user_id", "users", "id", "SET NULL"),
      OwnKey("workspace_id", "workspaces") := ForeignKey("workspace_id", "workspaces", "id", "CASCADE") ]
  }

  function RunsTable(md5: Digest): Table {
    Table(RunsColumns(), "id", "pk_chart_screenshot_runs", RunsChecks(md5), RunsKeys(), [])
  }

  /** The operations of the upgrade that create something, whatever the new table looks like. */
  function Create(runs: Table): seq<Op> {
    [ CreateTable(RUNS, runs),
      CreateIndex("ix_chart_screenshot_runs_workspace_id", RUNS, ["workspace_id"]),
      CreateIndex("ix_chart_screenshot_runs_workspace_source", RUNS, ["workspace_id", "source_id"]),
      CreateIndex("ix_chart_screenshot_runs_symbol_timeframe", RUNS, ["symbol_id", "timeframe"]),
      CreateIndex("ix_chart_screenshot_runs_analysis_run_id", RUNS, ["analysis_run_id"]),
      AddColumn(CANDLES, Optional(RUN_COLUMN, "UUID")),
      CreateForeignKey(CANDLES_KEY, CANDLES, ForeignKey(RUN_COLUMN, RUNS, "id", "SET NULL")),
      CreateIndex(CANDLES_INDEX, CANDLES, [RUN_COLUMN]) ]
  }

  function Drop(): seq<Op> {
    [ DropIndex(CANDLES_INDEX, CANDLES),
      DropForeignKey(CANDLES_KEY, CANDLES),
      DropColumn(CANDLES, RUN_COLUMN),
      DropIndex("ix_chart_screenshot_runs_analysis_run_id", RUNS),
      DropIndex("ix_chart_screenshot_runs_symbol_timeframe", RUNS),
      DropIndex("ix_chart_screenshot_runs_workspace_source", RUNS),
      DropIndex("ix_chart_screenshot_runs_workspace_id", RUNS),
      DropTable(RUNS) ]
  }

  /** The upgrade, whatever the new table looks like; the migration uses RunsTable. */
  function RunsUpgrade(runs: Table): seq<Op> {
    Replace(SOURCES, SOURCE_CHECK, "source_type", SourceTypes() + {"chart_screenshot"}) + Create(runs)
  }

  function RewriteSourcesProgram(): seq<Op> {
    RewriteAndReplace(SOURCES, SOURCE_CHECK, "source_type", SourceTypes(), "chart_screenshot", "manual_seed")
  }

  function RunsDowngrade(): seq<Op> {
    Drop() + RewriteSourcesProgram()
  }

  method CreateRunsTable(op: Operations, runs: Table) returns (r: Outcome)
    modifies op
    ensures op.Followed(old(op.database), Create(runs)[..3], r)
  {
    ghost var program := Create(runs)[..3];
    RunStep(op.database, program[0], program[1..]);
    :- op.Execute(CreateTable(RUNS, runs));
    RunStep(op.database, program[1], program[2..]);
    :- op.Execute(CreateIndex("ix_chart_screenshot_runs_workspace_id", RUNS, ["workspace_id"]));
    RunStep(op.database, program[2], []);
    :- op.Execute(CreateIndex("ix_chart_screenshot_runs_workspace_source", RUNS, ["workspace_id", "source_id"]));
    return Pass;
  }

  method IndexRunsTable(op: Operations, ghost runs: Table) returns (r: Outcome)
    modifies op
    ensures op.Followed(old(op.database), Create(runs)[3..5], r)
  {
    ghost var program := Create(runs)[3..5];
    RunStep(op.database, program[0], program[1..]);
    :- op.Execute(CreateIndex("ix_chart_screenshot_runs_symbol_timeframe", RUNS, ["symbol_id", "timeframe"]));
    RunStep(op.database, program[1], []);
    :- op.Execute(CreateIndex("ix_chart_screenshot_runs_analysis_run_id", RUNS, ["analysis_run_id"]));
    return Pass;
  }

  method AddRunReference(op: Operations, ghost runs: Table) returns (r: Outcome)
    modifies op
    ensures op.Followed(old(op.database), Create(runs)[5..], r)
  {
    ghost var program := Create(runs)[5..];
    RunStep(op.database, program[0], program[1..]);
    :- op.Execute(AddColumn(CANDLES, Optional(RUN_COLUMN, "UUID")));
    RunStep(op.database, program[1], program[2..]);
    :- op.Execute(CreateForeignKey(CANDLES_KEY, CANDLES, ForeignKey(RUN_COLUMN, RUNS, "id", "SET NULL")));
    RunStep(op.database, program[2], []);
    :- op.Execute(CreateIndex(CANDLES_INDEX, CANDLES, [RUN_COLUMN]));
    return Pass;
  }

  method CreateRuns(op: Operations, runs: Table) returns (r: Outcome)
    modifies op
    ensures op.Followed(old(op.database), Create(runs), r)
  {
    RunAppend(op.database, Create(runs)[..3], Create(runs)[3..]);
    assert Create(runs)[..3] + Create(runs)[3..] == Create(runs);
    :- CreateRunsTable(op, runs);
    RunAppend(op.database, Create(runs)[3..5], Create(runs)[5..]);
    assert Create(runs)[3..5] + Create(runs)[5..] == Create(runs)[3..];
    :- IndexRunsTable(op, runs);
    r := AddRunReference(op, runs);
  }

  method DropRunReference(op: Operations) returns (r: Outcome)
    modifies op
    ensures op.Followed(old(op.database), Drop()[..3], r)
  {
    ghost var program := Drop()[..3];
    RunStep(op.database, program[0], program[1..]);
    :- op.Execute(DropIndex(CANDLES_INDEX, CANDLES));
    RunStep(op.database, program[1], program[2..]);
    :- op.Execute(DropForeignKey(CANDLES_KEY, CANDLES));
    RunStep(op.database, program[2], []);
    :- op.Execute(DropColumn(CANDLES, RUN_COLUMN));
    return Pass;
  }

  method DropRunsTable(op: Operations) returns (r: Outcome)
    modifies op
    ensures op.Followed(old(op.database), Drop()[3..], r)
  {
    ghost var program := Drop()[3..];
    RunStep(op.database, program[0], program[1..]);
    :- op.Execute(DropIndex("ix_chart_screenshot_runs_analysis_run_id", RUNS));
    RunStep(op.database, program[1], program[2..]);
    :- op.Execute(DropIndex("ix_chart_screenshot_runs_symbol_timeframe", RUNS));
    RunStep(op.database, program[2], program[3..]);
    :- op.Execute(DropIndex("ix_chart_screenshot_runs_workspace_source", RUNS));
    RunStep(op.database, program[3], program[4..]);
    :- op.Execute(DropIndex("ix_chart_screenshot_runs_workspace_id", RUNS));
    RunStep(op.database, program[4], []);
    :- op.Execute(DropTable(RUNS));
    return Pass;
  }

  method DropRuns(op: Operations) returns (r: Outcome)
    modifies op
    ensures op.Followed(old(op.database), Drop(), r)
  {
    RunAppend(op.database, Drop()[..3], Drop()[3..]);
    assert Drop()[..3] + Drop()[3..] == Drop();
    :- DropRunReference(op);
    r := DropRunsTable(op);
  }

  method UpgradeRuns(op: Operations, md5: Digest) returns (r: Outcome)
    modifies op
    ensures Run(old(op.database), RunsUpgrade(RunsTable(md5))) == if r.Pass? then Some(op.database) else None
    ensures r.Fail? ==> op.database == old(op.database)
  {
    var before := op.database;
    var wide := SourceTypes() + {"chart_screenshot"};
    RunAppend(before, Replace(SOURCES, SOURCE_CHECK, "source_type", wide), Create(RunsTable(md5)));
    r := ReplaceCheck(op, SOURCES, SOURCE_CHECK, "source_type", wide);
    if r.Pass? {
      r := CreateRuns(op, RunsTable(md5));
    }
    if r.Fail? {
      op.database := before;
    }
  }

  method RewriteSources(op: Operations) returns (r: Outcome)
    modifies op
    ensures op.Followed(old(op.database), RewriteSourcesProgram(), r)
  {
    RunStep(op.database, Update(SOURCES, "source_type", "chart_screenshot", "manual_seed"),
      Replace(SOURCES, SOURCE_CHECK, "source_type", SourceTypes()));
    :- op.Execute(Update(SOURCES, "source_type", "chart_screenshot", "manual_seed"));
    r := ReplaceCheck(op, SOURCES, SOURCE_CHECK, "source_type", SourceTypes());
  }

  method DowngradeRuns(op: Operations) returns (r: Outcome)
    modifies op
    ensures Run(old(op.database), RunsDowngrade()) == if r.Pass? then Some(op.database) else None
    ensures r.Fail? ==> op.database == old(op.database)
  {
    var before := op.database;
    RunAppend(before, Drop(), RewriteSourcesProgram());
    r := DropRuns(op);
    if r.Pass? {
      r := RewriteSources(op);
    }
    if r.Fail? {
      op.database := before;
    }
  }

  // ---------------------------------------------------------------- its downgrade

  lemma UndoStep(op: Op, rest: seq<Op>)
    requires Creates(op) && AllCreate(rest)
    ensures AllCreate([op] + rest) && Undo([op] + rest) == Undo(rest) + [Inverse(op)]
  {
    assert ([op] + rest)[1..] == rest;
  }

  lemma UndoOfFirst(runs: Table)
    ensures AllCreate(Create(runs)[..4]) && Undo(Create(runs)[..4]) == Drop()[4..]
  {
    var program := Create(runs)[..4];
    UndoStep(program[3], []);
    UndoStep(program[2], program[3..]);
    UndoStep(program[1], program[2..]);
    UndoStep(program[0], program[1..]);
  }

  lemma UndoOfLast(runs: Table)
    ensures AllCreate(Create(runs)[4..]) && Undo(Create(runs)[4..]) == Drop()[..4]
  {
    var program := Create(runs)[4..];
    UndoStep(program[3], []);
    UndoStep(program[2], program[3..]);
    UndoStep(program[1], program[2..]);
    UndoStep(program[0], program[1..]);
  }

  /** The drops are the reversed inverses of the creating operations. */
  lemma UndoOfCreate(runs: Table)
    ensures AllCreate(Create(runs)) && Undo(Create(runs)) == Drop()
  {
    UndoOfFirst(runs);
    UndoOfLast(runs);
    UndoAppend(Create(runs)[..4], Create(runs)[4..]);
    assert Create(runs)[..4] + Create(runs)[4..] == Create(runs);
    assert Drop()[..4] + Drop()[4..] == Drop();
  }

  lemma DropSpares(name: string)
    requires name != RUNS && name != CANDLES
    ensures SparedBy(Drop(), name)
  {
  }

  lemma SourceFacts()
    ensures "manual_seed" in SourceTypes() && "chart_screenshot" !in SourceTypes()
  {
  }

  lemma CreateFacts(runs: Table)
    ensures AllCreate(Create(runs)) && Undo(Create(runs)) == Drop()
    ensures SparedBy(Undo(Create(runs)), SOURCES)
  {
    UndoOfCreate(runs);
    DropSpares(SOURCES);
  }

  /** Whatever rows come to be stored after the upgrade, as long as they satisfy its constraints, the
      downgrade succeeds at every step and brings the shape from before back; of the source types only
      the removed one is rewritten, and the rows of all other tables stay, candles aside (they lose
      their new column). */
  lemma RunsRoundTrip(before: Database, runs: Table, later: Database) returns (end: Database)
    requires Wf(before) && SOURCES in before.tables
    requires Allows(before.tables[SOURCES], SOURCE_CHECK, "source_type", SourceTypes())
    requires Run(before, RunsUpgrade(runs)).Some?
    requires Wf(later) && Shape(later) == Shape(Run(before, RunsUpgrade(runs)).value)
    ensures Run(later, RunsDowngrade()) == Some(end) && Shape(end) == Shape(before)
    ensures SOURCES in later.tables && SOURCES in end.tables
    ensures end.tables[SOURCES].rows
         == Updated(later.tables[SOURCES], "source_type", "chart_screenshot", "manual_seed").rows
    ensures forall other | other in later.tables && other !in {RUNS, CANDLES, SOURCES} ::
              other in end.tables && end.tables[other].rows == later.tables[other].rows
    ensures later == Run(before, RunsUpgrade(runs)).value ==> end == before
  {
    SourceFacts();
    CreateFacts(runs);
    end := WidenCreateRoundTrip(before, later, SOURCES, SOURCE_CHECK, "source_type", SourceTypes(),
      "chart_screenshot", "manual_seed", Create(runs));
    forall other | other in later.tables && other !in {RUNS, CANDLES, SOURCES}
      ensures SparedBy(Undo(Create(runs)), other)
    {
      DropSpares(other);
    }
  }
}
