/** On which databases the chart-screenshot upgrades succeed. */
module ChartScreenshotsReady {
  import opened Wrappers
  import opened Naming
  import opened Schema
  import opened SchemaLaws
  import opened SchemaShape
  import opened Narrowing
  import opened Migrations
  import opened SchemaReady
  import opened ChartScreenshots

  // ---------------------------------------------------------------- replacing a check

  /** There is a check of this name, and the rows and the columns fit the one that replaces it. */
  predicate CheckReady(db: Database, name: string, constraint: string, column: string, allowed: set<string>) {
    name in db.tables && constraint in db.tables[name].checks && column in Names(db.tables[name].columns) &&
    AllHold(OneOf(column, allowed), db.tables[name].rows)
  }

  /** A replaced check needs the old one, whatever it checked. */
  lemma ReplaceReadyExactly(db: Database, name: string, constraint: string, column: string, allowed: set<string>)
    requires Wf(db)
    ensures Run(db, Replace(name, constraint, column, allowed)) ==
            if CheckReady(db, name, constraint, column, allowed)
            then Some(WidenedIn(db, name, constraint, column, allowed))
            else None
  {
    if name in db.tables && constraint in db.tables[name].checks {
      CheckFacts(db, name, constraint);
      if column in Names(db.tables[name].columns) {
        ReplaceRuns(db, name, constraint, column, allowed);
      } else {
        RunStep(db, DropCheck(constraint, name), [CreateCheck(constraint, name, OneOf(column, allowed))]);
      }
    }
  }

  /** The hardening upgrade succeeds exactly when a check exists under the name that the convention makes
      of the given one, and the statuses are within the widened set. */
  lemma HardeningSucceedsExactly(db: Database, md5: Digest)
    requires Wf(db)
    ensures Run(db, HardeningUpgrade(md5)).Some? <==>
            CheckReady(db, RUNS, HardeningCheck(md5), "status", Statuses() + {"review_required"})
  {
    ReplaceReadyExactly(db, RUNS, HardeningCheck(md5), "status", Statuses() + {"review_required"});
  }

  /** A rewritten row is within the narrow set exactly when the row was within it or held the removed
      value. */
  lemma RewrittenHoldsExactly(t: Table, column: string, narrow: set<string>, from: string, to: string)
    requires to in narrow
    ensures AllHold(OneOf(column, narrow), Updated(t, column, from, to).rows) <==>
            Within(t.rows, column, narrow + {from})
  {
    var rows := Updated(t, column, from, to).rows;
    forall i | 0 <= i < |rows|
      ensures Holds(OneOf(column, narrow), rows[i]) <==> ValueWithin(t.rows[i], column, narrow + {from})
    {
      assert rows[i] == Rewritten(t.rows[i], column, from, to);
    }
    assert forall i | 0 <= i < |rows| :: rows[i] in rows && t.rows[i] in t.rows;
  }

  /** Rewriting and then replacing succeeds exactly when there is a check of this name, the rewriting
      itself is accepted, and every value is in the narrow set or the removed one. */
  lemma RewriteReadyExactly(db: Database, name: string, constraint: string, column: string, narrow: set<string>,
                            from: string, to: string)
    requires Wf(db) && to in narrow
    ensures Run(db, RewriteAndReplace(name, constraint, column, narrow, from, to)).Some? <==>
            name in db.tables && constraint in db.tables[name].checks && Accepts(db, Update(name, column, from, to)) &&
            Within(db.tables[name].rows, column, narrow + {from})
  {
    var update := Update(name, column, from, to);
    RunStep(db, update, Replace(name, constraint, column, narrow));
    if Accepts(db, update) {
      KeepsWf(db, update);
      ReplaceReadyExactly(Effect(db, update), name, constraint, column, narrow);
      RewrittenHoldsExactly(db.tables[name], column, narrow, from, to);
    }
  }

  /** The hardening downgrade succeeds exactly when a check exists under the expanded name, the rewriting
      of the rows is accepted, and the statuses are within the widened set. */
  lemma HardeningDowngradeSucceedsExactly(db: Database, md5: Digest)
    requires Wf(db)
    ensures Run(db, HardeningDowngrade(md5)).Some? <==>
            RUNS in db.tables && HardeningCheck(md5) in db.tables[RUNS].checks &&
            Accepts(db, Update(RUNS, "status", "review_required", "completed")) &&
            Within(db.tables[RUNS].rows, "status", Statuses() + {"review_required"})
  {
    RewriteReadyExactly(db, RUNS, HardeningCheck(md5), "status", Statuses(), "review_required", "completed");
  }

  // ---------------------------------------------------------------- the new table

  const KEY_NAME := "pk_chart_screenshot_runs"

  function RunsIndexes(): seq<NewIndex> {
    [ NewIndex("ix_chart_screenshot_runs_workspace_id", ["workspace_id"]),
      NewIndex("ix_chart_screenshot_runs_workspace_source", ["workspace_id", "source_id"]),
      NewIndex("ix_chart_screenshot_runs_symbol_timeframe", ["symbol_id", "timeframe"]),
      NewIndex("ix_chart_screenshot_runs_analysis_run_id", ["analysis_run_id"]) ]
  }

  lemma CreateIndexesStep(table: string, first: NewIndex, rest: seq<NewIndex>)
    ensures CreateIndexes(table, [first] + rest)
         == [CreateIndex(first.name, table, first.columns)] + CreateIndexes(table, rest)
  {
    assert ([first] + rest)[1..] == rest;
  }

  lemma CreateInBlocks(runs: Table)
    ensures Create(runs) == CreateBlock(RUNS, runs, RunsIndexes())
                            + AddReference(CANDLES, RUN_COLUMN, RUNS, CANDLES_KEY, CANDLES_INDEX)
  {
    var x := RunsIndexes();
    CreateIndexesStep(RUNS, x[0], [x[1], x[2], x[3]]);
    CreateIndexesStep(RUNS, x[1], [x[2], x[3]]);
    CreateIndexesStep(RUNS, x[2], [x[3]]);
    CreateIndexesStep(RUNS, x[3], []);
    assert x == [x[0]] + [x[1], x[2], x[3]] && [x[1], x[2], x[3]] == [x[1]] + [x[2], x[3]];
    assert [x[2], x[3]] == [x[2]] + [x[3]] && [x[3]] == [x[3]] + [];
  }

  predicate HasCodes(columns: seq<Column>, codes: seq<int>) {
    |codes| == |columns| && forall i | 0 <= i < |codes| :: Code(columns[i].name) == codes[i]
  }

  function OriginCodes(): seq<int> {
    [2305, 12330, 7332, 9326, 9336, 15307, 9322, 9308, 11310, 14319, 18313]
  }

  function ResultCodes(): seq<int> {
    [6346, 21322, 16327, 19347, 15333, 14326, 19322, 30308]
  }

  function DetailCodes(): seq<int> {
    [22337, 20321, 22331, 24331, 20319, 15306, 18306, 10329, 10345, 10347, 12326]
  }

  lemma OriginHasCodes()
    ensures HasCodes(OriginColumns(), OriginCodes())
  {
    var c := OriginColumns();
    assert Code(c[0].name) == OriginCodes()[0];
    assert Code(c[1].name) == OriginCodes()[1];
    assert Code(c[2].name) == OriginCodes()[2];
    assert Code(c[3].name) == OriginCodes()[3];
    assert Code(c[4].name) == OriginCodes()[4];
    assert Code(c[5].name) == OriginCodes()[5];
    assert Code(c[6].name) == OriginCodes()[6];
    assert Code(c[7].name) == OriginCodes()[7];
    assert Code(c[8].name) == OriginCodes()[8];
    assert Code(c[9].name) == OriginCodes()[9];
    assert Code(c[10].name) == OriginCodes()[10];
  }

  lemma ResultHasCodes()
    ensures HasCodes(ResultColumns(), ResultCodes())
  {
    var c := ResultColumns();
    assert Code(c[0].name) == ResultCodes()[0];
    assert Code(c[1].name) == ResultCodes()[1];
    assert Code(c[2].name) == ResultCodes()[2];
    assert Code(c[3].name) == ResultCodes()[3];
    assert Code(c[4].name) == ResultCodes()[4];
    assert Code(c[5].name) == ResultCodes()[5];
    assert Code(c[6].name) == ResultCodes()[6];
    assert Code(c[7].name) == ResultCodes()[7];
  }

  lemma DetailHasCodes()
    ensures HasCodes(DetailColumns(), DetailCodes())
  {
    var c := DetailColumns();
    assert Code(c[0].name) == DetailCodes()[0];
    assert Code(c[1].name) == DetailCodes()[1];
    assert Code(c[2].name) == DetailCodes()[2];
    assert Code(c[3].name) == DetailCodes()[3];
    assert Code(c[4].name) == DetailCodes()[4];
    assert Code(c[5].name) == DetailCodes()[5];
    assert Code(c[6].name) == DetailCodes()[6];
    assert Code(c[7].name) == DetailCodes()[7];
    assert Code(c[8].name) == DetailCodes()[8];
    assert Code(c[9].name) == DetailCodes()[9];
    assert Code(c[10].name) == DetailCodes()[10];
  }

  lemma HasCodesConcat(first: seq<Column>, firstCodes: seq<int>, second: seq<Column>, secondCodes: seq<int>)
    requires HasCodes(first, firstCodes) && HasCodes(second, secondCodes)
    ensures HasCodes(first + second, firstCodes + secondCodes)
  {
  }

  lemma CodesDiffer()
    ensures var codes := OriginCodes() + ResultCodes() + DetailCodes();
            forall i, j | 0 <= i < j < |codes| :: codes[i] != codes[j]
  {
  }

  lemma RunsColumnsDistinct()
    ensures DistinctNames(RunsColumns())
  {
    OriginHasCodes();
    ResultHasCodes();
    DetailHasCodes();
    HasCodesConcat(OriginColumns(), OriginCodes(), ResultColumns(), ResultCodes());
    HasCodesConcat(OriginColumns() + ResultColumns(), OriginCodes() + ResultCodes(), DetailColumns(), DetailCodes());
    CodesDiffer();
    DistinctByCode(RunsColumns(), OriginCodes() + ResultCodes() + DetailCodes());
  }

  lemma NamesOfConcat(first: seq<Column>, second: seq<Column>)
    ensures Names(first + second) == Names(first) + Names(second)
  {
  }

  predicate HasOrigin(names: set<string>) {
    "id" in names && "workspace_id" in names && "user_id" in names && "source_id" in names &&
    "symbol_id" in names && "analysis_run_id" in names && "timeframe" in names
  }

  predicate HasResults(names: set<string>) {
    "status" in names && "extraction_confidence" in names && "raw_candle_count" in names &&
    "stored_candle_count" in names && "duplicate_count" in names && "conflict_count" in names &&
    "analysis_hypothesis" in names && "analysis_hypothesis_confidence" in names
  }

  lemma OriginNames()
    ensures HasOrigin(Names(OriginColumns()))
  {
    var columns := OriginColumns();
    NamesAt(columns, 0);
    NamesAt(columns, 1);
    NamesAt(columns, 2);
    NamesAt(columns, 3);
    NamesAt(columns, 4);
    NamesAt(columns, 5);
    NamesAt(columns, 6);
  }

  lemma ResultNames()
    ensures HasResults(Names(ResultColumns()))
  {
    var columns := ResultColumns();
    NamesAt(columns, 0);
    NamesAt(columns, 1);
    NamesAt(columns, 2);
    NamesAt(columns, 3);
    NamesAt(columns, 4);
    NamesAt(columns, 5);
    NamesAt(columns, 6);
    NamesAt(columns, 7);
  }

  lemma RunsNames()
    ensures HasOrigin(Names(RunsColumns())) && HasResults(Names(RunsColumns()))
  {
    OriginNames();
    ResultNames();
    NamesOfConcat(OriginColumns(), ResultColumns());
    NamesOfConcat(OriginColumns() + ResultColumns(), DetailColumns());
  }

  /** The checks are on columns of the table. */
  lemma ChecksFitColumns(names: set<string>, md5: Digest)
    requires HasResults(names)
    ensures forall c | c in RunsChecks(md5) :: RunsChecks(md5)[c].column in names
  {
  }

  /** Which the name keeps of its text: all that matters here. */
  lemma OwnName(rest: string, md5: Digest)
    ensures var name := CheckName(RUNS, Final(OwnCheck(rest)), md5);
            |name| <= MAX_IDENTIFIER && |name| > 26 && name[0] == 'c' && name[26] == 'h'
  {
    assert |RUNS| == 21 && RUNS[1] == 'h';
  }

  predicate IsOwnName(name: string) {
    26 < |name| <= MAX_IDENTIFIER && name[0] == 'c' && name[26] == 'h'
  }

  lemma ChecksNamed(md5: Digest)
    ensures forall c | c in RunsChecks(md5) :: IsOwnName(c)
  {
    OwnName("status_allowed", md5);
    OwnName("analysis_hypothesis_allowed", md5);
    OwnName("extraction_confidence_range", md5);
    OwnName("hypothesis_confidence_range", md5);
    OwnName("raw_count_non_negative", md5);
    OwnName("stored_count_non_negative", md5);
    OwnName("duplicate_count_non_negative", md5);
    OwnName("conflict_count_non_negative", md5);
  }

  lemma KeyLength(column: string, refTable: string)
    ensures |OwnKey(column, refTable)| == 26 + |column| + |refTable| && OwnKey(column, refTable)[0] == 'f'
  {
    assert |RUNS| == 21;
  }

  lemma KeysNamed()
    ensures forall k | k in RunsKeys() :: 0 < |k| <= MAX_IDENTIFIER && k[0] == 'f'
  {
    KeyLength("analysis_run_id", "analysis_runs");
    KeyLength("source_id", SOURCES);
    KeyLength("symbol_id", "symbols");
    KeyLength("user_id", "users");
    KeyLength("workspace_id", "workspaces");
  }

  lemma KeysFitColumns(names: set<string>)
    requires HasOrigin(names)
    ensures forall k | k in RunsKeys() :: RunsKeys()[k].column in names && RunsKeys()[k].refColumn == "id"
  {
  }

  lemma KeyTargets()
    ensures forall k | k in RunsKeys() ::
              RunsKeys()[k].refTable in {"analysis_runs", SOURCES, "symbols", "users", "workspaces"}
  {
  }

  lemma RunsConstraintNames(md5: Digest)
    ensures ConstraintNamesOk(RunsTable(md5))
  {
    ChecksNamed(md5);
    KeysNamed();
    assert KEY_NAME[0] == 'p';
  }

  lemma RunsTableOk(md5: Digest)
    ensures TableOk(RunsTable(md5))
  {
    RunsColumnsDistinct();
    RunsNames();
    ChecksFitColumns(Names(RunsColumns()), md5);
    RunsConstraintNames(md5);
    KeysFitColumns(Names(RunsColumns()));
  }

  lemma TablesDiffer()
    ensures RUNS !in {"analysis_runs", SOURCES, "symbols", "users", "workspaces", CANDLES} && SOURCES != CANDLES
  {
    assert |RUNS| == 21 && |SOURCES| == 12 && |CANDLES| == 7;
    assert |"analysis_runs"| == 13 && |"symbols"| == 7 && |"users"| == 5 && |"workspaces"| == 10;
  }

  lemma IndexesDiffer()
    ensures !Among(RUNS, RunsIndexes()) && !Among(KEY_NAME, RunsIndexes()) && !Among(CANDLES_INDEX, RunsIndexes())
    ensures RUNS != KEY_NAME && CANDLES_INDEX !in {RUNS, KEY_NAME} && |CANDLES_INDEX| == 34
  {
    IndexLengths();
  }

  lemma IndexLengths()
    ensures var x := RunsIndexes();
            |x[0].name| == 37 && |x[1].name| == 41 && |x[2].name| == 41 && |x[3].name| == 40 &&
            x[1].name != x[2].name && |RUNS| == 21 && |KEY_NAME| == 24 && |CANDLES_INDEX| == 34
  {
    var x := RunsIndexes();
    assert x[1].name[25] == 'w' && x[2].name[25] == 's';
  }

  lemma RunsIndexesFit(t: Table)
    requires HasOrigin(Names(t.columns))
    ensures IndexesFitTable(t, RunsIndexes())
  {
    IndexLengths();
  }

  lemma RunsBlockFits(md5: Digest)
    ensures BlockFits(RUNS, RunsTable(md5), RunsIndexes())
  {
    RunsTableOk(md5);
    RunsNames();
    KeysFitColumns(Names(RunsColumns()));
    KeyTargets();
    TablesDiffer();
    RunsIndexesFit(RunsTable(md5));
    IndexesDiffer();
  }

  // ---------------------------------------------------------------- creating the table and the reference

  /** What the part after the widening needs, whatever the new table looks like. */
  predicate CreateReady(db: Database, runs: Table) {
    BlockReady(db, RUNS, runs, RunsIndexes()) && ReferenceReady(db, CANDLES, RUN_COLUMN, CANDLES_KEY, CANDLES_INDEX)
  }

  lemma CandlesStayReady(db: Database, runs: Table)
    requires runs.primaryKey == "id" && runs.primaryKeyName == KEY_NAME
    ensures var db' := WithBlock(db, RUNS, runs, RunsIndexes());
            KeyedTable(db', RUNS) && db'.tables == db.tables[RUNS := runs] &&
            (ReferenceReady(db', CANDLES, RUN_COLUMN, CANDLES_KEY, CANDLES_INDEX) <==>
             ReferenceReady(db, CANDLES, RUN_COLUMN, CANDLES_KEY, CANDLES_INDEX))
  {
    AfterBlock(db, RUNS, runs, RunsIndexes(), RUNS);
    AfterBlock(db, RUNS, runs, RunsIndexes(), CANDLES_INDEX);
    TablesDiffer();
    IndexesDiffer();
  }

  lemma ReferenceSucceedsOnto(db: Database, reference: seq<Op>)
    requires KeyedTable(db, RUNS) && reference == AddReference(CANDLES, RUN_COLUMN, RUNS, CANDLES_KEY, CANDLES_INDEX)
    ensures Run(db, reference).Some? <==> ReferenceReady(db, CANDLES, RUN_COLUMN, CANDLES_KEY, CANDLES_INDEX)
    ensures Run(db, reference).Some? ==>
              RUNS in Run(db, reference).value.tables && Run(db, reference).value.tables[RUNS] == db.tables[RUNS]
  {
    ReferenceSucceedsExactly(db, CANDLES, RUN_COLUMN, RUNS, CANDLES_KEY, CANDLES_INDEX);
    TablesDiffer();
  }

  /** The block and the reference, as two programs. */
  lemma BlockAndReference(db: Database, runs: Table, block: seq<Op>, reference: seq<Op>)
    requires BlockFits(RUNS, runs, RunsIndexes()) && runs.primaryKeyName == KEY_NAME
    requires block == CreateBlock(RUNS, runs, RunsIndexes())
    requires reference == AddReference(CANDLES, RUN_COLUMN, RUNS, CANDLES_KEY, CANDLES_INDEX)
    ensures var after := Run(db, block + reference);
            (after.Some? <==> CreateReady(db, runs)) &&
            (after.Some? ==> RUNS in after.value.tables && after.value.tables[RUNS] == runs)
  {
    RunAppend(db, block, reference);
    BlockSucceedsExactly(db, RUNS, runs, RunsIndexes());
    if BlockReady(db, RUNS, runs, RunsIndexes()) {
      CandlesStayReady(db, runs);
      ReferenceSucceedsOnto(WithBlock(db, RUNS, runs, RunsIndexes()), reference);
    }
  }

  lemma CreateSucceedsExactly(db: Database, runs: Table)
    requires BlockFits(RUNS, runs, RunsIndexes()) && runs.primaryKeyName == KEY_NAME
    ensures Run(db, Create(runs)).Some? <==> CreateReady(db, runs)
    ensures Run(db, Create(runs)).Some? ==>
              RUNS in Run(db, Create(runs)).value.tables && Run(db, Create(runs)).value.tables[RUNS] == runs
  {
    CreateInBlocks(runs);
    BlockAndReference(db, runs, CreateBlock(RUNS, runs, RunsIndexes()),
      AddReference(CANDLES, RUN_COLUMN, RUNS, CANDLES_KEY, CANDLES_INDEX));
  }

  /** Replacing the check of the sources changes nothing that the rest needs. */
  lemma WideningKeepsReady(db: Database, runs: Table, allowed: set<string>)
    requires SOURCES in db.tables
    ensures CreateReady(WidenedIn(db, SOURCES, SOURCE_CHECK, "source_type", allowed), runs) <==> CreateReady(db, runs)
  {
    var db' := WidenedIn(db, SOURCES, SOURCE_CHECK, "source_type", allowed);
    TablesDiffer();
    forall name
      ensures (FreeName(db', name) <==> FreeName(db, name)) && (KeyedTable(db', name) <==> KeyedTable(db, name))
    {
    }
  }

  lemma AnyRunsSucceedExactly(db: Database, runs: Table)
    requires Wf(db) && BlockFits(RUNS, runs, RunsIndexes()) && runs.primaryKeyName == KEY_NAME
    ensures Run(db, RunsUpgrade(runs)).Some? <==>
            CheckReady(db, SOURCES, SOURCE_CHECK, "source_type", SourceTypes() + {"chart_screenshot"}) &&
            CreateReady(db, runs)
    ensures Run(db, RunsUpgrade(runs)).Some? ==>
              RUNS in Run(db, RunsUpgrade(runs)).value.tables && Run(db, RunsUpgrade(runs)).value.tables[RUNS] == runs
  {
    var wide := SourceTypes() + {"chart_screenshot"};
    RunAppend(db, Replace(SOURCES, SOURCE_CHECK, "source_type", wide), Create(runs));
    ReplaceReadyExactly(db, SOURCES, SOURCE_CHECK, "source_type", wide);
    if CheckReady(db, SOURCES, SOURCE_CHECK, "source_type", wide) {
      WideningKeepsReady(db, runs, wide);
      CreateSucceedsExactly(WidenedIn(db, SOURCES, SOURCE_CHECK, "source_type", wide), runs);
    }
  }

  // ---------------------------------------------------------------- the whole upgrade

  /** The tables it refers to exist. */
  predicate TargetsExist(db: Database) {
    KeyedTable(db, "analysis_runs") && KeyedTable(db, SOURCES) && KeyedTable(db, "symbols") &&
    KeyedTable(db, "users") && KeyedTable(db, "workspaces")
  }

  /** The source types are checked and within the widened set, the names the upgrade creates are free,
      the tables it refers to exist, and candles can take the reference. */
  predicate RunsReady(db: Database) {
    CheckReady(db, SOURCES, SOURCE_CHECK, "source_type", SourceTypes() + {"chart_screenshot"}) &&
    FreeName(db, RUNS) && FreeName(db, KEY_NAME) && FreeNames(db, RunsIndexes()) && TargetsExist(db) &&
    ReferenceReady(db, CANDLES, RUN_COLUMN, CANDLES_KEY, CANDLES_INDEX)
  }

  lemma KeysDistinct()
    ensures |OwnKey("analysis_run_id", "analysis_runs")| == 54 && |OwnKey("source_id", SOURCES)| == 47
    ensures |OwnKey("symbol_id", "symbols")| == 42 && |OwnKey("user_id", "users")| == 38
    ensures |OwnKey("workspace_id", "workspaces")| == 48
  {
    KeyLength("analysis_run_id", "analysis_runs");
    KeyLength("source_id", SOURCES);
    KeyLength("symbol_id", "symbols");
    KeyLength("user_id", "users");
    KeyLength("workspace_id", "workspaces");
  }

  lemma EveryTarget(t: Table)
    requires t.foreignKeys == RunsKeys()
    ensures RefersToTable(t, "analysis_runs") && RefersToTable(t, SOURCES) && RefersToTable(t, "symbols")
    ensures RefersToTable(t, "users") && RefersToTable(t, "workspaces")
  {
    KeysDistinct();
    var keys := RunsKeys();
    assert keys[OwnKey("analysis_run_id", "analysis_runs")].refTable == "analysis_runs";
    assert keys[OwnKey("source_id", SOURCES)].refTable == SOURCES;
    assert keys[OwnKey("symbol_id", "symbols")].refTable == "symbols";
    assert keys[OwnKey("user_id", "users")].refTable == "users";
    assert keys[OwnKey("workspace_id", "workspaces")].refTable == "workspaces";
  }

  lemma TargetKeyed(db: Database, t: Table, name: string)
    requires TargetsKeyed(db, t) && RefersToTable(t, name)
    ensures KeyedTable(db, name)
  {
  }

  lemma AllTargetsKeyed(db: Database, t: Table)
    requires TargetsExist(db)
    requires forall k | k in t.foreignKeys ::
               t.foreignKeys[k].refTable in {"analysis_runs", SOURCES, "symbols", "users", "workspaces"}
    ensures TargetsKeyed(db, t)
  {
  }

  lemma TargetsExactly(db: Database, t: Table)
    requires t.foreignKeys == RunsKeys()
    ensures TargetsKeyed(db, t) <==> TargetsExist(db)
  {
    if TargetsKeyed(db, t) {
      EveryTarget(t);
      TargetKeyed(db, t, "analysis_runs");
      TargetKeyed(db, t, SOURCES);
      TargetKeyed(db, t, "symbols");
      TargetKeyed(db, t, "users");
      TargetKeyed(db, t, "workspaces");
    }
    if TargetsExist(db) {
      KeyTargets();
      AllTargetsKeyed(db, t);
    }
  }

  /** The upgrade succeeds exactly on the databases that are ready for it, and leaves the new table with
      its own checks. */
  lemma RunsSucceedsExactly(db: Database, md5: Digest)
    requires Wf(db)
    ensures Run(db, RunsUpgrade(RunsTable(md5))).Some? <==> RunsReady(db)
    ensures RunsReady(db) ==>
              var after := Run(db, RunsUpgrade(RunsTable(md5))).value;
              RUNS in after.tables && after.tables[RUNS] == RunsTable(md5)
  {
    RunsBlockFits(md5);
    TargetsExactly(db, RunsTable(md5));
    AnyRunsSucceedExactly(db, RunsTable(md5));
  }

  // ---------------------------------------------------------------- the hardening migration after it

  /** The expanded name keeps the text after the table. */
  lemma ExpandedName(text: string, md5: Digest)
    requires |text| > 1
    ensures var name := CheckName(RUNS, Plain(text), md5); |name| > 26 && name[26] == text[1]
  {
    assert |RUNS| == 21;
    assert ("ck_" + RUNS + "_" + text)[25..] == text;
  }

  lemma HardeningCheckIsNew(checks: map<string, Check>, md5: Digest)
    requires forall c | c in checks :: IsOwnName(c)
    ensures HardeningCheck(md5) !in checks
  {
    assert OwnCheck("status_allowed")[1] == 'k';
    ExpandedName(OwnCheck("status_allowed"), md5);
    assert !IsOwnName(HardeningCheck(md5));
  }

  /** As long as the table has no checks but those of the first migration, whatever else has happened to
      the database, both directions of the hardening migration fail. */
  lemma HardeningFailsOnOwnChecks(db: Database, md5: Digest)
    requires RUNS in db.tables && db.tables[RUNS].checks.Keys <= RunsChecks(md5).Keys
    ensures Run(db, HardeningUpgrade(md5)) == None && Run(db, HardeningDowngrade(md5)) == None
  {
    ChecksNamed(md5);
    HardeningCheckIsNew(RunsChecks(md5), md5);
    WithoutCheck(db, RUNS, HardeningCheck(md5), "status", Statuses() + {"review_required"});
    RunStep(db, Update(RUNS, "status", "review_required", "completed"),
      Replace(RUNS, HardeningCheck(md5), "status", Statuses()));
    if Accepts(db, Update(RUNS, "status", "review_required", "completed")) {
      WithoutCheck(Effect(db, Update(RUNS, "status", "review_required", "completed")), RUNS,
        HardeningCheck(md5), "status", Statuses());
    }
  }

  /** The name that the hardening migration drops is not one the first migration made, whatever rows have
      come since: both its directions fail on the database the first migration leaves. */
  lemma HardeningFailsAfterRuns(before: Database, later: Database, md5: Digest)
    requires Wf(before) && Run(before, RunsUpgrade(RunsTable(md5))).Some?
    requires Shape(later) == Shape(Run(before, RunsUpgrade(RunsTable(md5))).value)
    ensures Run(later, HardeningUpgrade(md5)) == None && Run(later, HardeningDowngrade(md5)) == None
  {
    RunsSucceedsExactly(before, md5);
    SameChecks(Run(before, RunsUpgrade(RunsTable(md5))).value, later, RUNS);
    HardeningFailsOnOwnChecks(later, md5);
  }

  lemma SameChecks(db: Database, other: Database, name: string)
    requires Shape(db) == Shape(other) && name in db.tables
    ensures name in other.tables && other.tables[name].checks == db.tables[name].checks
  {
    ShapeHasTables(db, other);
    assert Shape(db).tables[name] == Bare(db.tables[name]);
    assert Shape(other).tables[name] == Bare(other.tables[name]);
  }

  lemma WithoutCheck(db: Database, name: string, constraint: string, column: string, allowed: set<string>)
    requires name in db.tables && constraint !in db.tables[name].checks
    ensures Run(db, Replace(name, constraint, column, allowed)) == None
  {
    RunStep(db, DropCheck(constraint, name), [CreateCheck(constraint, name, OneOf(column, allowed))]);
  }

  // ---------------------------------------------------------------- a database it succeeds on

  function Others(): seq<string> {
    ["workspaces", "users", "symbols", "analysis_runs", CANDLES]
  }

  function SourcesColumns(): seq<Column> {
    [Required("id", "UUID"), Required("source_type", "VARCHAR(32)")]
  }

  function SourcesTable(): Table {
    Table(SourcesColumns(), "id", KeyOf(SOURCES), map[SOURCE_CHECK := OneOf("source_type", SourceTypes())], map[], [])
  }

  /** The tables that the upgrade needs. */
  function NeededDatabase(): Database {
    WithNewTable(PlainDatabase(Others()), SOURCES, SourcesTable())
  }

  lemma OthersPlain()
    ensures PlainNames(Others()) && SOURCES !in Others() && PlainName(SOURCES) && RUNS !in Others() && PlainName(RUNS)
  {
    assert |SOURCES| == 12 && |RUNS| == 21;
  }

  lemma SourcesTableOk()
    ensures TableOk(SourcesTable()) && Names(SourcesTable().columns) == {"id", "source_type"}
  {
    var columns := SourcesColumns();
    NamesAt(columns, 0);
    NamesAt(columns, 1);
    assert |SOURCE_CHECK| == 35 && SOURCE_CHECK[0] == 'c' && KeyOf(SOURCES)[0] == 'p';
  }

  lemma NeededWf()
    ensures Wf(NeededDatabase())
  {
    OthersPlain();
    PlainDatabaseWf(Others());
    SourcesTableOk();
    PlainFree(Others(), SOURCES);
    KeepsWf(PlainDatabase(Others()), CreateTable(SOURCES, SourcesTable()));
  }

  lemma NeededTakesReference()
    ensures ReferenceReady(NeededDatabase(), CANDLES, RUN_COLUMN, CANDLES_KEY, CANDLES_INDEX)
  {
    OthersPlain();
    TablesDiffer();
    assert |RUN_COLUMN| == 23 && |CANDLES_KEY| == 56 && |CANDLES_INDEX| == 34;
    PlainTakesReference(Others(), CANDLES, RUN_COLUMN, CANDLES_KEY, CANDLES_INDEX);
    assert KeyOf(SOURCES)[0] == 'p';
  }

  /** One more table takes its own name and that of its key. */
  lemma FreeBesideSources(name: string)
    requires FreeName(PlainDatabase(Others()), name) && name != SOURCES && name != KeyOf(SOURCES)
    ensures FreeName(NeededDatabase(), name)
  {
  }

  lemma NeededIndexesFree()
    ensures FreeNames(NeededDatabase(), RunsIndexes())
  {
    OthersPlain();
    assert KeyOf(SOURCES)[0] == 'p' && SOURCES[0] == 'd';
    forall i | i in RunsIndexes() ensures FreeName(NeededDatabase(), i.name) {
      assert i.name[0] == 'i';
      OtherFree(Others(), i.name);
      FreeBesideSources(i.name);
    }
  }

  lemma RunsNameFree(names: seq<string>)
    requires PlainNames(names) && RUNS !in names && PlainName(RUNS)
    ensures FreeName(PlainDatabase(names), RUNS) && FreeName(PlainDatabase(names), KEY_NAME)
  {
    PlainFree(names, RUNS);
    assert KEY_NAME == KeyOf(RUNS);
  }

  lemma RunsIsNotSources()
    ensures RUNS != SOURCES && RUNS != KeyOf(SOURCES) && KEY_NAME != SOURCES && KEY_NAME != KeyOf(SOURCES)
  {
    assert |RUNS| == 21 && |KEY_NAME| == 24 && |SOURCES| == 12 && |KeyOf(SOURCES)| == 15;
  }

  lemma NeededNamesFree()
    ensures FreeName(NeededDatabase(), RUNS) && FreeName(NeededDatabase(), KEY_NAME)
  {
    OthersPlain();
    RunsNameFree(Others());
    RunsIsNotSources();
    FreeBesideSources(RUNS);
    FreeBesideSources(KEY_NAME);
  }

  lemma TargetsOf(names: seq<string>)
    requires "analysis_runs" in names && "symbols" in names && "users" in names && "workspaces" in names
    ensures TargetsExist(WithNewTable(PlainDatabase(names), SOURCES, SourcesTable()))
  {
    PlainContents(names, "analysis_runs");
    PlainContents(names, "symbols");
    PlainContents(names, "users");
    PlainContents(names, "workspaces");
  }

  lemma SourcesReady(db: Database)
    ensures var db' := WithNewTable(db, SOURCES, SourcesTable());
            CheckReady(db', SOURCES, SOURCE_CHECK, "source_type", SourceTypes() + {"chart_screenshot"})
  {
    SourcesTableOk();
  }

  lemma NeededReady()
    ensures RunsReady(NeededDatabase())
  {
    SourcesReady(PlainDatabase(Others()));
    NeededTakesReference();
    NeededNamesFree();
    NeededIndexesFree();
    TargetsOf(Others());
  }

  /** There are consistent databases that the upgrade succeeds on: that of just the needed tables. */
  lemma NeededTablesSuffice(md5: Digest)
    ensures Wf(NeededDatabase()) && Run(NeededDatabase(), RunsUpgrade(RunsTable(md5))).Some?
  {
    NeededWf();
    NeededReady();
    RunsSucceedsExactly(NeededDatabase(), md5);
  }
}
