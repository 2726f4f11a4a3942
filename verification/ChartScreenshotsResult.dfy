/** What the chart-screenshot migrations leave in the database. */
module ChartScreenshotsResult {
  import opened Wrappers
  import opened Naming
  import opened Schema
  import opened SchemaLaws
  import opened SchemaReady
  import opened Narrowing
  import opened Migrations
  import opened RowChecks
  import opened ChartScreenshots
  import opened ChartScreenshotsReady

  // ---------------------------------------------------------------- tables that no statement names

  predicate Untouched(ops: seq<Op>, name: string) {
    forall op | op in ops :: op.table != name
  }

  /** A table that no statement names stays as it is. */
  lemma {:induction false} UntouchedStays(db: Database, ops: seq<Op>, name: string)
    requires Run(db, ops).Some? && Untouched(ops, name)
    ensures var after := Run(db, ops).value;
            (name in after.tables <==> name in db.tables) &&
            (name in db.tables ==> after.tables[name] == db.tables[name])
    decreases |ops|
  {
    if ops == [] {
    } else {
      assert ops[0] in ops;
      UntouchedStays(Effect(db, ops[0]), ops[1..], name);
    }
  }

  // ---------------------------------------------------------------- the first upgrade, in two parts

  function WideTypes(): set<string> {
    SourceTypes() + {"chart_screenshot"}
  }

  /** The upgrade widens the check of the sources and then creates. */
  lemma InTwoParts(db: Database, runs: Table) returns (widened: Database)
    requires Wf(db) && Run(db, RunsUpgrade(runs)).Some?
    ensures SOURCES in db.tables && SOURCE_CHECK in db.tables[SOURCES].checks
    ensures widened == WidenedIn(db, SOURCES, SOURCE_CHECK, "source_type", WideTypes())
    ensures Run(db, RunsUpgrade(runs)) == Run(widened, Create(runs))
  {
    RunAppend(db, Replace(SOURCES, SOURCE_CHECK, "source_type", WideTypes()), Create(runs));
    ReplaceReadyExactly(db, SOURCES, SOURCE_CHECK, "source_type", WideTypes());
    widened := WidenedIn(db, SOURCES, SOURCE_CHECK, "source_type", WideTypes());
  }

  lemma CreateTouches(runs: Table, name: string)
    requires name != RUNS && name != CANDLES
    ensures Untouched(Create(runs), name)
  {
  }

  lemma SourcesWritten(db: Database, runs: Table)
    requires Wf(db) && Run(db, RunsUpgrade(runs)).Some?
    ensures SOURCES in db.tables && SOURCES in Run(db, RunsUpgrade(runs)).value.tables
    ensures Run(db, RunsUpgrade(runs)).value.tables[SOURCES] ==
            WithAllowed(db.tables[SOURCES], SOURCE_CHECK, "source_type", WideTypes())
  {
    var widened := InTwoParts(db, runs);
    TablesDiffer();
    CreateTouches(runs, SOURCES);
    UntouchedStays(widened, Create(runs), SOURCES);
  }

  lemma WideTypesExactly(types: set<string>)
    requires types ==
             {"csv_upload", "json_import", "api_polling", "websocket_live", "manual_seed", "chart_screenshot"}
    ensures WideTypes() == types
  {
  }

  /** The sources may now come from a screenshot; nothing else about them changes. */
  lemma SourcesWidened(db: Database, md5: Digest, check: string, types: set<string>)
    requires Wf(db) && Run(db, RunsUpgrade(RunsTable(md5))).Some?
    requires check == "ck_data_sources_source_type_allowed"
    requires types ==
             {"csv_upload", "json_import", "api_polling", "websocket_live", "manual_seed", "chart_screenshot"}
    ensures "data_sources" in db.tables && "data_sources" in Run(db, RunsUpgrade(RunsTable(md5))).value.tables
    ensures var t := db.tables["data_sources"];
            Run(db, RunsUpgrade(RunsTable(md5))).value.tables["data_sources"] ==
            t.(checks := t.checks[check := OneOf("source_type", types)])
  {
    SourcesWritten(db, RunsTable(md5));
    WideTypesExactly(types);
  }

  lemma OthersWritten(db: Database, runs: Table, name: string)
    requires Wf(db) && Run(db, RunsUpgrade(runs)).Some? && name != SOURCES && name != CANDLES && name != RUNS
    ensures var tables := Run(db, RunsUpgrade(runs)).value.tables;
            (name in tables <==> name in db.tables) && (name in db.tables ==> tables[name] == db.tables[name])
  {
    var widened := InTwoParts(db, runs);
    CreateTouches(runs, name);
    UntouchedStays(widened, Create(runs), name);
  }

  /** No table changes but that one, the candles and the new one. */
  lemma OtherTablesStay(db: Database, md5: Digest, name: string)
    requires Wf(db) && Run(db, RunsUpgrade(RunsTable(md5))).Some?
    requires name != "data_sources" && name != "candles" && name != "chart_screenshot_runs"
    ensures var tables := Run(db, RunsUpgrade(RunsTable(md5))).value.tables;
            (name in tables <==> name in db.tables) && (name in db.tables ==> tables[name] == db.tables[name])
  {
    OthersWritten(db, RunsTable(md5), name);
  }

  // ---------------------------------------------------------------- the candles

  lemma CreatedExactly(db: Database, runs: Table)
    requires BlockFits(RUNS, runs, RunsIndexes()) && runs.primaryKeyName == KEY_NAME && Run(db, Create(runs)).Some?
    ensures CANDLES in db.tables
    ensures var middle := WithBlock(db, RUNS, runs, RunsIndexes());
            CANDLES in middle.tables && middle.tables == db.tables[RUNS := runs] &&
            Run(db, Create(runs)) == Some(WithReference(middle, CANDLES, RUN_COLUMN, RUNS, CANDLES_KEY, CANDLES_INDEX))
  {
    var block, middle := CreateBlock(RUNS, runs, RunsIndexes()), WithBlock(db, RUNS, runs, RunsIndexes());
    CreateSucceedsExactly(db, runs);
    CreateInBlocks(runs);
    RunAppend(db, block, AddReference(CANDLES, RUN_COLUMN, RUNS, CANDLES_KEY, CANDLES_INDEX));
    BlockSucceedsExactly(db, RUNS, runs, RunsIndexes());
    CandlesStayReady(db, runs);
    ReferenceSucceedsExactly(middle, CANDLES, RUN_COLUMN, RUNS, CANDLES_KEY, CANDLES_INDEX);
  }

  lemma ReferenceTable(middle: Database, after: Database)
    requires CANDLES in middle.tables
    requires after == WithReference(middle, CANDLES, RUN_COLUMN, RUNS, CANDLES_KEY, CANDLES_INDEX)
    ensures CANDLES in after.tables
    ensures after.tables[CANDLES] == Referencing(middle.tables[CANDLES], RUN_COLUMN, RUNS, CANDLES_KEY)
    ensures after.indexes == middle.indexes[CANDLES_INDEX := Index(CANDLES, [RUN_COLUMN])]
  {
  }

  lemma CandlesCreated(db: Database, runs: Table)
    requires BlockFits(RUNS, runs, RunsIndexes()) && runs.primaryKeyName == KEY_NAME && Run(db, Create(runs)).Some?
    ensures CANDLES in db.tables && CANDLES in Run(db, Create(runs)).value.tables
    ensures Run(db, Create(runs)).value.tables[CANDLES] ==
            Referencing(db.tables[CANDLES], RUN_COLUMN, RUNS, CANDLES_KEY)
  {
    CreatedExactly(db, runs);
    TablesDiffer();
    ReferenceTable(WithBlock(db, RUNS, runs, RunsIndexes()), Run(db, Create(runs)).value);
  }

  lemma CandlesWritten(db: Database, runs: Table)
    requires BlockFits(RUNS, runs, RunsIndexes()) && runs.primaryKeyName == KEY_NAME
    requires Wf(db) && Run(db, RunsUpgrade(runs)).Some?
    ensures CANDLES in db.tables && CANDLES in Run(db, RunsUpgrade(runs)).value.tables
    ensures Run(db, RunsUpgrade(runs)).value.tables[CANDLES] ==
            Referencing(db.tables[CANDLES], RUN_COLUMN, RUNS, CANDLES_KEY)
  {
    var widened := InTwoParts(db, runs);
    CandlesCreated(widened, runs);
    TablesDiffer();
  }

  /** The candles get a column, null in all their rows, that refers to the run they were read off and is set to
      null with it; nothing else about them changes. */
  lemma CandlesTable(db: Database, md5: Digest, key: string)
    requires Wf(db) && Run(db, RunsUpgrade(RunsTable(md5))).Some?
    requires key == "fk_" + "candles" + "_" + "chart_screenshot_run_id" + "_" + "chart_screenshot_runs"
    ensures "candles" in db.tables && "candles" in Run(db, RunsUpgrade(RunsTable(md5))).value.tables
    ensures var t, t' := db.tables["candles"], Run(db, RunsUpgrade(RunsTable(md5))).value.tables["candles"];
            t'.columns == t.columns + [Column("chart_screenshot_run_id", "UUID", true, None)] &&
            t'.foreignKeys ==
            t.foreignKeys[key := ForeignKey("chart_screenshot_run_id", "chart_screenshot_runs", "id", "SET NULL")] &&
            t'.checks == t.checks && t'.primaryKey == t.primaryKey && |t'.rows| == |t.rows| &&
            forall i | 0 <= i < |t.rows| :: t'.rows[i] == t.rows[i]["chart_screenshot_run_id" := Null]
  {
    RunsBlockFits(md5);
    CandlesWritten(db, RunsTable(md5));
    ReferencingMeans(db.tables[CANDLES], RUN_COLUMN, RUNS, CANDLES_KEY);
  }

  // ---------------------------------------------------------------- the new table

  lemma RunsWritten(db: Database, md5: Digest)
    requires Wf(db) && Run(db, RunsUpgrade(RunsTable(md5))).Some?
    ensures RUNS in Run(db, RunsUpgrade(RunsTable(md5))).value.tables
    ensures Run(db, RunsUpgrade(RunsTable(md5))).value.tables[RUNS] == RunsTable(md5)
  {
    RunsSucceedsExactly(db, md5);
  }

  /** The name of one of the table's checks. */
  function OwnName(rest: string, md5: Digest): string {
    CheckName(RUNS, Final(OwnCheck(rest)), md5)
  }

  /** What tells the names of the checks apart. */
  function OwnCode(name: string): (char, char) {
    if |name| > 49 then (name[47], name[49]) else ('-', '-')
  }

  lemma OwnNameCode(rest: string, md5: Digest)
    requires |rest| >= 8
    ensures OwnCode(OwnName(rest, md5)) == (rest[0], rest[2])
  {
    assert |RUNS| == 21;
    assert |"ck_" + RUNS + "_" + RUNS + "_"| == 47;
    assert OwnCheck(rest)[47] == rest[0] && OwnCheck(rest)[49] == rest[2];
  }

  lemma NamesApart(rests: seq<string>, codes: seq<(char, char)>, md5: Digest)
    requires |codes| == |rests|
    requires forall i | 0 <= i < |rests| :: |rests[i]| >= 8 && (rests[i][0], rests[i][2]) == codes[i]
    requires forall i, j | 0 <= i < j < |codes| :: codes[i] != codes[j]
    ensures forall i, j | 0 <= i < j < |rests| :: OwnName(rests[i], md5) != OwnName(rests[j], md5)
  {
    forall i, j | 0 <= i < j < |rests| ensures OwnName(rests[i], md5) != OwnName(rests[j], md5) {
      OwnNameCode(rests[i], md5);
      OwnNameCode(rests[j], md5);
      assert codes[i] != codes[j];
    }
  }

  predicate AllEight(k: seq<Check>, row: Row)
    requires |k| == 8
  {
    Holds(k[0], row) && Holds(k[1], row) && Holds(k[2], row) && Holds(k[3], row) && Holds(k[4], row) &&
    Holds(k[5], row) && Holds(k[6], row) && Holds(k[7], row)
  }

  lemma EightChecks(n: seq<string>, k: seq<Check>, checks: map<string, Check>, row: Row)
    requires |n| == |k| == 8 && forall i, j | 0 <= i < j < |n| :: n[i] != n[j]
    requires checks == map[n[0] := k[0], n[1] := k[1], n[2] := k[2], n[3] := k[3], n[4] := k[4], n[5] := k[5],
                           n[6] := k[6], n[7] := k[7]]
    ensures (forall c | c in checks :: Holds(checks[c], row)) <==> AllEight(k, row)
  {
    ListedChecks(checks, n, k, row);
    assert AllEight(k, row) <==> forall i | 0 <= i < 8 :: Holds(k[i], row);
  }

  /** What the names of the eight checks end with, in the order in which they are declared. */
  function Rests(): seq<string> {
    ["status_allowed", "analysis_hypothesis_allowed", "extraction_confidence_range", "hypothesis_confidence_range",
     "raw_count_non_negative", "stored_count_non_negative", "duplicate_count_non_negative",
     "conflict_count_non_negative"]
  }

  lemma CheckNamesApart(md5: Digest)
    ensures var r := Rests(); forall i, j | 0 <= i < j < |r| :: OwnName(r[i], md5) != OwnName(r[j], md5)
  {
    var r := Rests();
    var codes := [('s', 'a'), ('a', 'a'), ('e', 't'), ('h', 'p'), ('r', 'w'), ('s', 'o'), ('d', 'p'), ('c', 'n')];
    NamesApart(r, codes, md5);
  }

  /** The table's checks, in the same order. */
  function Checks(statuses: set<string>, hypotheses: set<string>): seq<Check> {
    [ OneOf("status", statuses), OneOf("analysis_hypothesis", hypotheses), Between("extraction_confidence", 0.0, 1.0),
      Between("analysis_hypothesis_confidence", 0.0, 1.0), AtLeast("raw_candle_count", 0.0),
      AtLeast("stored_candle_count", 0.0), AtLeast("duplicate_count", 0.0), AtLeast("conflict_count", 0.0) ]
  }

  function OwnNames(r: seq<string>, md5: Digest): (n: seq<string>)
    requires |r| == 8
    ensures |n| == 8 && forall i | 0 <= i < 8 :: n[i] == OwnName(r[i], md5)
  {
    [OwnName(r[0], md5), OwnName(r[1], md5), OwnName(r[2], md5), OwnName(r[3], md5), OwnName(r[4], md5),
     OwnName(r[5], md5), OwnName(r[6], md5), OwnName(r[7], md5)]
  }

  lemma NamedChecksHold(r: seq<string>, md5: Digest, k: seq<Check>, checks: map<string, Check>, row: Row)
    requires |r| == |k| == 8
    requires forall i, j | 0 <= i < j < |r| :: OwnName(r[i], md5) != OwnName(r[j], md5)
    requires var n := OwnNames(r, md5);
             checks == map[n[0] := k[0], n[1] := k[1], n[2] := k[2], n[3] := k[3], n[4] := k[4], n[5] := k[5],
                           n[6] := k[6], n[7] := k[7]]
    ensures (forall c | c in checks :: Holds(checks[c], row)) <==> AllEight(k, row)
  {
    EightChecks(OwnNames(r, md5), k, checks, row);
  }

  lemma RunsChecksListed(md5: Digest, statuses: set<string>, hypotheses: set<string>)
    requires statuses == Statuses() && hypotheses == {"bullish", "bearish", "neutral", "unclear", "unknown"}
    ensures var n, k := OwnNames(Rests(), md5), Checks(statuses, hypotheses);
            RunsChecks(md5) == map[n[0] := k[0], n[1] := k[1], n[2] := k[2], n[3] := k[3], n[4] := k[4], n[5] := k[5],
                                   n[6] := k[6], n[7] := k[7]]
  {
  }

  lemma RunsChecksHold(md5: Digest, statuses: set<string>, hypotheses: set<string>, row: Row)
    requires statuses == Statuses() && hypotheses == {"bullish", "bearish", "neutral", "unclear", "unknown"}
    ensures (forall c | c in RunsChecks(md5) :: Holds(RunsChecks(md5)[c], row)) <==>
            AllEight(Checks(statuses, hypotheses), row)
  {
    CheckNamesApart(md5);
    RunsChecksListed(md5, statuses, hypotheses);
    NamedChecksHold(Rests(), md5, Checks(statuses, hypotheses), RunsChecks(md5), row);
  }

  lemma EachCheckMeans(statuses: set<string>, hypotheses: set<string>, row: Row)
    requires "status" in row && "analysis_hypothesis" in row && "extraction_confidence" in row
    requires "analysis_hypothesis_confidence" in row && "raw_candle_count" in row && "stored_candle_count" in row
    requires "duplicate_count" in row && "conflict_count" in row
    ensures var status, hypothesis, sure, guess := row["status"], row["analysis_hypothesis"],
                                                   row["extraction_confidence"], row["analysis_hypothesis_confidence"];
            var raw, stored, duplicates, conflicts :=
              row["raw_candle_count"], row["stored_candle_count"], row["duplicate_count"], row["conflict_count"];
            AllEight(Checks(statuses, hypotheses), row) <==>
            (status == Null || (status.Text? && status.text in statuses)) &&
            (hypothesis == Null || (hypothesis.Text? && hypothesis.text in hypotheses)) &&
            (sure == Null || (sure.Number? && 0.0 <= sure.number <= 1.0)) &&
            (guess == Null || (guess.Number? && 0.0 <= guess.number <= 1.0)) &&
            (raw == Null || (raw.Number? && 0.0 <= raw.number)) &&
            (stored == Null || (stored.Number? && 0.0 <= stored.number)) &&
            (duplicates == Null || (duplicates.Number? && 0.0 <= duplicates.number)) &&
            (conflicts == Null || (conflicts.Number? && 0.0 <= conflicts.number))
  {
  }

  lemma StatusesExactly(statuses: set<string>)
    requires statuses ==
             {"received", "parsing", "ingested", "analysis_triggered", "analysis_failed", "failed", "completed"}
    ensures statuses == Statuses()
  {
  }

  /** All checks of the screenshot runs hold on a row exactly when its status and its hypothesis are among these,
      its two confidences lie between 0 and 1 and its four counts are not negative, where they are not null. */
  lemma ScreenshotRows(db: Database, md5: Digest, statuses: set<string>, hypotheses: set<string>, row: Row)
    requires Wf(db) && Run(db, RunsUpgrade(RunsTable(md5))).Some?
    requires statuses ==
             {"received", "parsing", "ingested", "analysis_triggered", "analysis_failed", "failed", "completed"}
    requires hypotheses == {"bullish", "bearish", "neutral", "unclear", "unknown"}
    requires "status" in row && "analysis_hypothesis" in row && "extraction_confidence" in row
    requires "analysis_hypothesis_confidence" in row && "raw_candle_count" in row && "stored_candle_count" in row
    requires "duplicate_count" in row && "conflict_count" in row
    ensures "chart_screenshot_runs" in Run(db, RunsUpgrade(RunsTable(md5))).value.tables
    ensures var t := Run(db, RunsUpgrade(RunsTable(md5))).value.tables["chart_screenshot_runs"];
            var status, hypothesis, sure, guess := row["status"], row["analysis_hypothesis"],
                                                   row["extraction_confidence"], row["analysis_hypothesis_confidence"];
            var raw, stored, duplicates, conflicts :=
              row["raw_candle_count"], row["stored_candle_count"], row["duplicate_count"], row["conflict_count"];
            (forall c | c in t.checks :: Holds(t.checks[c], row)) <==>
            (status == Null || (status.Text? && status.text in statuses)) &&
            (hypothesis == Null || (hypothesis.Text? && hypothesis.text in hypotheses)) &&
            (sure == Null || (sure.Number? && 0.0 <= sure.number <= 1.0)) &&
            (guess == Null || (guess.Number? && 0.0 <= guess.number <= 1.0)) &&
            (raw == Null || (raw.Number? && 0.0 <= raw.number)) &&
            (stored == Null || (stored.Number? && 0.0 <= stored.number)) &&
            (duplicates == Null || (duplicates.Number? && 0.0 <= duplicates.number)) &&
            (conflicts == Null || (conflicts.Number? && 0.0 <= conflicts.number))
  {
    RunsWritten(db, md5);
    StatusesExactly(statuses);
    RunsChecksHold(md5, statuses, hypotheses, row);
    EachCheckMeans(statuses, hypotheses, row);
  }

  lemma ValuesOfFive(n: seq<string>, k: seq<ForeignKey>, keys: map<string, ForeignKey>)
    requires |n| == |k| == 5 && forall i, j | 0 <= i < j < |n| :: n[i] != n[j]
    requires keys == map[n[0] := k[0], n[1] := k[1], n[2] := k[2], n[3] := k[3], n[4] := k[4]]
    ensures keys.Values == {k[0], k[1], k[2], k[3], k[4]}
  {
    assert keys[n[0]] == k[0] && keys[n[1]] == k[1] && keys[n[2]] == k[2];
    assert keys[n[3]] == k[3] && keys[n[4]] == k[4];
  }

  lemma RunsKeyValues()
    ensures RunsKeys().Values ==
            { ForeignKey("analysis_run_id", "analysis_runs", "id", "SET NULL"),
              ForeignKey("source_id", "data_sources", "id", "RESTRICT"),
              ForeignKey("symbol_id", "symbols", "id", "RESTRICT"), ForeignKey("user_id", "users", "id", "SET NULL"),
              ForeignKey("workspace_id", "workspaces", "id", "CASCADE") }
  {
    KeysDistinct();
    var n := [OwnKey("analysis_run_id", "analysis_runs"), OwnKey("source_id", SOURCES),
              OwnKey("symbol_id", "symbols"), OwnKey("user_id", "users"), OwnKey("workspace_id", "workspaces")];
    var k := [ForeignKey("analysis_run_id", "analysis_runs", "id", "SET NULL"),
              ForeignKey("source_id", SOURCES, "id", "RESTRICT"), ForeignKey("symbol_id", "symbols", "id", "RESTRICT"),
              ForeignKey("user_id", "users", "id", "SET NULL"),
              ForeignKey("workspace_id", "workspaces", "id", "CASCADE")];
    ValuesOfFive(n, k, RunsKeys());
  }

  /** A run goes with its workspace, keeps its source and its symbol from being deleted, and outlives its user and
      its analysis. */
  lemma ScreenshotKeys(db: Database, md5: Digest)
    requires Wf(db) && Run(db, RunsUpgrade(RunsTable(md5))).Some?
    ensures "chart_screenshot_runs" in Run(db, RunsUpgrade(RunsTable(md5))).value.tables
    ensures var t := Run(db, RunsUpgrade(RunsTable(md5))).value.tables["chart_screenshot_runs"];
            t.rows == [] && t.primaryKey == "id" && t.primaryKeyName == "pk_chart_screenshot_runs" &&
            t.foreignKeys.Values ==
            { ForeignKey("analysis_run_id", "analysis_runs", "id", "SET NULL"),
              ForeignKey("source_id", "data_sources", "id", "RESTRICT"),
              ForeignKey("symbol_id", "symbols", "id", "RESTRICT"), ForeignKey("user_id", "users", "id", "SET NULL"),
              ForeignKey("workspace_id", "workspaces", "id", "CASCADE") }
  {
    RunsWritten(db, md5);
    RunsKeyValues();
  }

  /** Its columns, in order. */
  lemma ScreenshotColumns(db: Database, md5: Digest, origin: seq<Column>, results: seq<Column>, details: seq<Column>)
    requires Wf(db) && Run(db, RunsUpgrade(RunsTable(md5))).Some?
    requires origin ==
             [ Column("id", "UUID", false, None), Column("workspace_id", "UUID", false, None),
               Column("user_id", "UUID", true, None), Column("source_id", "UUID", false, None),
               Column("symbol_id", "UUID", false, None), Column("analysis_run_id", "UUID", true, None),
               Column("timeframe", "VARCHAR(16)", false, None), Column("file_name", "VARCHAR(255)", true, None),
               Column("parser_name", "VARCHAR(80)", false, None), Column("parser_version", "VARCHAR(32)", false, None),
               Column("parser_source_path", "VARCHAR(255)", true, None) ]
    requires results ==
             [ Column("status", "VARCHAR(32)", false, None),
               Column("extraction_confidence", "NUMERIC(5, 4)", false, Some(Number(0.0))),
               Column("raw_candle_count", "INTEGER", false, Some(Number(0.0))),
               Column("stored_candle_count", "INTEGER", false, Some(Number(0.0))),
               Column("duplicate_count", "INTEGER", false, Some(Number(0.0))),
               Column("conflict_count", "INTEGER", false, Some(Number(0.0))),
               Column("analysis_hypothesis", "VARCHAR(16)", false, None),
               Column("analysis_hypothesis_confidence", "NUMERIC(5, 4)", true, None) ]
    requires details ==
             [ Column("extracted_window_start", "TIMESTAMPTZ", true, None),
               Column("extracted_window_end", "TIMESTAMPTZ", true, None),
               Column("extracted_payload_json", "JSONB", true, None),
               Column("extraction_warnings_json", "JSONB", false, Some(Text("{}"))),
               Column("parser_metadata_json", "JSONB", false, Some(Text("{}"))),
               Column("last_error_code", "VARCHAR(64)", true, None),
               Column("last_error_message", "VARCHAR(500)", true, None),
               Column("created_at", "TIMESTAMPTZ", false, Some(Text("now()"))),
               Column("updated_at", "TIMESTAMPTZ", false, Some(Text("now()"))),
               Column("started_at", "TIMESTAMPTZ", true, None), Column("completed_at", "TIMESTAMPTZ", true, None) ]
    ensures "chart_screenshot_runs" in Run(db, RunsUpgrade(RunsTable(md5))).value.tables
    ensures Run(db, RunsUpgrade(RunsTable(md5))).value.tables["chart_screenshot_runs"].columns ==
            origin + results + details
  {
    RunsWritten(db, md5);
    assert origin == OriginColumns();
    assert results == ResultColumns();
    assert details == DetailColumns();
  }

  // ---------------------------------------------------------------- the indexes

  lemma IndexesApart()
    ensures var x := RunsIndexes();
            (forall i, j | 0 <= i < j < |x| :: x[i].name != x[j].name) && forall i | 0 <= i < |x| ::
              x[i].name != CANDLES_INDEX
  {
    IndexLengths();
  }

  lemma IndexCreated(db: Database, runs: Table, x: seq<NewIndex>, k: nat)
    requires x == RunsIndexes() && k < |x|
    requires BlockFits(RUNS, runs, x) && runs.primaryKeyName == KEY_NAME && Run(db, Create(runs)).Some?
    ensures var indexes := Run(db, Create(runs)).value.indexes;
            x[k].name in indexes && indexes[x[k].name] == Index(RUNS, x[k].columns) &&
            CANDLES_INDEX in indexes && indexes[CANDLES_INDEX] == Index(CANDLES, [RUN_COLUMN])
  {
    CreatedExactly(db, runs);
    IndexesApart();
    IndexWritten(WithNewTable(db, RUNS, runs), RUNS, x, k);
    ReferenceTable(WithBlock(db, RUNS, runs, x), Run(db, Create(runs)).value);
  }

  lemma IndexListed(index: string, columns: seq<string>) returns (k: nat)
    requires (index == "ix_chart_screenshot_runs_workspace_id" && columns == ["workspace_id"]) ||
             (index == "ix_chart_screenshot_runs_workspace_source" && columns == ["workspace_id", "source_id"]) ||
             (index == "ix_chart_screenshot_runs_symbol_timeframe" && columns == ["symbol_id", "timeframe"]) ||
             (index == "ix_chart_screenshot_runs_analysis_run_id" && columns == ["analysis_run_id"])
    ensures k < |RunsIndexes()| && RunsIndexes()[k] == NewIndex(index, columns)
  {
    k := if |columns| == 1 then (if columns == ["workspace_id"] then 0 else 3)
         else if columns == ["workspace_id", "source_id"] then 1 else 2;
  }

  /** The runs have four indexes besides that of their key, and the candles one on their new column. */
  lemma ScreenshotIndexes(db: Database, md5: Digest, index: string, columns: seq<string>)
    requires Wf(db) && Run(db, RunsUpgrade(RunsTable(md5))).Some?
    requires (index == "ix_chart_screenshot_runs_workspace_id" && columns == ["workspace_id"]) ||
             (index == "ix_chart_screenshot_runs_workspace_source" && columns == ["workspace_id", "source_id"]) ||
             (index == "ix_chart_screenshot_runs_symbol_timeframe" && columns == ["symbol_id", "timeframe"]) ||
             (index == "ix_chart_screenshot_runs_analysis_run_id" && columns == ["analysis_run_id"])
    ensures var indexes := Run(db, RunsUpgrade(RunsTable(md5))).value.indexes;
            index in indexes && indexes[index] == Index("chart_screenshot_runs", columns) &&
            "ix_candles_chart_screenshot_run_id" in indexes &&
            indexes["ix_candles_chart_screenshot_run_id"] == Index("candles", ["chart_screenshot_run_id"])
  {
    var widened := InTwoParts(db, RunsTable(md5));
    RunsBlockFits(md5);
    var k := IndexListed(index, columns);
    IndexCreated(widened, RunsTable(md5), RunsIndexes(), k);
  }

  // ---------------------------------------------------------------- the other three directions

  lemma RewrittenAndReplaced(db: Database, name: string, constraint: string, column: string, narrow: set<string>,
                             from: string, to: string)
    requires Wf(db) && Run(db, RewriteAndReplace(name, constraint, column, narrow, from, to)).Some?
    ensures var after := Run(db, RewriteAndReplace(name, constraint, column, narrow, from, to)).value;
            name in db.tables && name in after.tables &&
            after.tables[name] == WithAllowed(Updated(db.tables[name], column, from, to), constraint, column, narrow)
  {
    var update := Update(name, column, from, to);
    RunStep(db, update, Replace(name, constraint, column, narrow));
    KeepsWf(db, update);
    ReplaceReadyExactly(Effect(db, update), name, constraint, column, narrow);
  }

  lemma NarrowedMeans(t: Table, constraint: string, column: string, narrow: set<string>, from: string, to: string)
    ensures var t' := WithAllowed(Updated(t, column, from, to), constraint, column, narrow);
            t'.checks == t.checks[constraint := OneOf(column, narrow)] &&
            t'.columns == t.columns && t'.foreignKeys == t.foreignKeys && t'.primaryKey == t.primaryKey &&
            |t'.rows| == |t.rows| && forall i | 0 <= i < |t.rows| ::
              t'.rows[i] == if column in t.rows[i] && t.rows[i][column] == Text(from)
                            then t.rows[i][column := Text(to)] else t.rows[i]
  {
  }

  lemma DropTouches(name: string)
    requires name != RUNS && name != CANDLES
    ensures Untouched(Drop(), name)
  {
  }

  lemma SourcesRewritten(db: Database)
    requires Wf(db) && Run(db, RunsDowngrade()).Some?
    ensures SOURCES in db.tables && SOURCES in Run(db, RunsDowngrade()).value.tables
    ensures Run(db, RunsDowngrade()).value.tables[SOURCES] ==
            WithAllowed(Updated(db.tables[SOURCES], "source_type", "chart_screenshot", "manual_seed"),
                        SOURCE_CHECK, "source_type", SourceTypes())
  {
    RunAppend(db, Drop(), RewriteSourcesProgram());
    RunKeepsWf(db, Drop());
    TablesDiffer();
    DropTouches(SOURCES);
    UntouchedStays(db, Drop(), SOURCES);
    RewrittenAndReplaced(Run(db, Drop()).value, SOURCES, SOURCE_CHECK, "source_type", SourceTypes(),
      "chart_screenshot", "manual_seed");
  }

  /** Wherever the first downgrade succeeds, the sources allow the five other types again, those that came from a
      screenshot are now seeded by hand, and nothing else about them changes. */
  lemma SourcesNarrowed(db: Database, check: string, types: set<string>)
    requires Wf(db) && Run(db, RunsDowngrade()).Some?
    requires check == "ck_data_sources_source_type_allowed"
    requires types == {"csv_upload", "json_import", "api_polling", "websocket_live", "manual_seed"}
    ensures "data_sources" in db.tables && "data_sources" in Run(db, RunsDowngrade()).value.tables
    ensures var t, t' := db.tables["data_sources"], Run(db, RunsDowngrade()).value.tables["data_sources"];
            t'.checks == t.checks[check := OneOf("source_type", types)] &&
            t'.columns == t.columns && t'.foreignKeys == t.foreignKeys && t'.primaryKey == t.primaryKey &&
            |t'.rows| == |t.rows| && forall i | 0 <= i < |t.rows| ::
              t'.rows[i] == if "source_type" in t.rows[i] && t.rows[i]["source_type"] == Text("chart_screenshot")
                            then t.rows[i]["source_type" := Text("manual_seed")] else t.rows[i]
  {
    SourcesRewritten(db);
    NarrowedMeans(db.tables[SOURCES], SOURCE_CHECK, "source_type", SourceTypes(), "chart_screenshot", "manual_seed");
  }

  /** The name under which the hardening migration looks for the check: the table and the convention are put in
      front of it twice, and the whole is cut. */
  lemma HardeningName(md5: Digest, runs: string, full: string)
    requires runs == "chart_screenshot_runs"
    requires full == "ck_" + runs + "_" + ("ck_" + runs + "_" + runs + "_" + "status_allowed")
    requires |md5(full)| > 4
    ensures HardeningCheck(md5) == full[..55] + "_" + md5(full)[|md5(full)| - 4..]
  {
    assert |runs| == 21 && |full| == 86;
  }

  /** The hardening upgrade lets a run wait for a review, and changes nothing else. */
  lemma StatusesWidened(db: Database, md5: Digest, statuses: set<string>)
    requires Wf(db) && Run(db, HardeningUpgrade(md5)).Some?
    requires statuses == {"received", "parsing", "ingested", "review_required", "analysis_triggered",
                          "analysis_failed", "failed", "completed"}
    ensures "chart_screenshot_runs" in db.tables
    ensures var t := db.tables["chart_screenshot_runs"];
            var t' := t.(checks := t.checks[HardeningCheck(md5) := OneOf("status", statuses)]);
            Run(db, HardeningUpgrade(md5)).value == db.(tables := db.tables["chart_screenshot_runs" := t'])
  {
    assert statuses == Statuses() + {"review_required"};
    ReplaceReadyExactly(db, RUNS, HardeningCheck(md5), "status", Statuses() + {"review_required"});
  }

  /** Wherever its downgrade succeeds, the runs that waited for a review are completed, and the other seven
      statuses are the allowed ones again. */
  lemma StatusesNarrowed(db: Database, md5: Digest, statuses: set<string>)
    requires Wf(db) && Run(db, HardeningDowngrade(md5)).Some?
    requires statuses ==
             {"received", "parsing", "ingested", "analysis_triggered", "analysis_failed", "failed", "completed"}
    ensures "chart_screenshot_runs" in db.tables
    ensures "chart_screenshot_runs" in Run(db, HardeningDowngrade(md5)).value.tables
    ensures var t, t' := db.tables["chart_screenshot_runs"],
                         Run(db, HardeningDowngrade(md5)).value.tables["chart_screenshot_runs"];
            t'.checks == t.checks[HardeningCheck(md5) := OneOf("status", statuses)] &&
            t'.columns == t.columns && t'.foreignKeys == t.foreignKeys && t'.primaryKey == t.primaryKey &&
            |t'.rows| == |t.rows| && forall i | 0 <= i < |t.rows| ::
              t'.rows[i] == if "status" in t.rows[i] && t.rows[i]["status"] == Text("review_required")
                            then t.rows[i]["status" := Text("completed")] else t.rows[i]
  {
    StatusesExactly(statuses);
    RewrittenAndReplaced(db, RUNS, HardeningCheck(md5), "status", Statuses(), "review_required", "completed");
    NarrowedMeans(db.tables[RUNS], HardeningCheck(md5), "status", Statuses(), "review_required", "completed");
  }
}
