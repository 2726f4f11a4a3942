/** The database a migration changes, and the operations that change it. An operation can fail, as
    the statement it stands for can. */
module Schema {
  import opened Wrappers
  import opened Naming

  datatype Value = Null | Text(text: string) | Number(number: real)

  datatype Column = Column(name: string, sqlType: string, nullable: bool, serverDefault: Option<Value>)

  datatype Check =
    | OneOf(column: string, allowed: set<string>)
    | Between(column: string, low: real, high: real)
    | AtLeast(column: string, low: real)

  datatype ForeignKey = ForeignKey(column: string, refTable: string, refColumn: string, onDelete: string)

  datatype Index = Index(table: string, columns: seq<string>)

  type Row = map<string, Value>

  /** `primaryKeyName` names the constraint and the index that goes with it. */
  datatype Table = Table(
    columns: seq<Column>,
    primaryKey: string,
    primaryKeyName: string,
    checks: map<string, Check>,
    foreignKeys: map<string, ForeignKey>,
    rows: seq<Row>)

  datatype Database = Database(tables: map<string, Table>, indexes: map<string, Index>)

  datatype Op =
    | CreateTable(table: string, definition: Table)
    | DropTable(table: string)
    | AddColumn(table: string, column: Column)
    | DropColumn(table: string, name: string)
    | CreateIndex(index: string, table: string, columns: seq<string>)
    | DropIndex(index: string, table: string)
    | CreateForeignKey(constraint: string, table: string, key: ForeignKey)
    | DropForeignKey(constraint: string, table: string)
    | CreateCheck(constraint: string, table: string, check: Check)
    | DropCheck(constraint: string, table: string)
    | Update(table: string, name: string, from: string, to: string)

  // ---------------------------------------------------------------- rows and constraints

  function Names(columns: seq<Column>): set<string> {
    set c | c in columns :: c.name
  }

  predicate DistinctNames(columns: seq<Column>) {
    forall i, j :: 0 <= i < j < |columns| ==> columns[i].name != columns[j].name
  }

  /** A check accepts a null, as in SQL. */
  predicate Holds(check: Check, row: Row) {
    check.column in row &&
    match row[check.column]
    case Null => true
    case Text(text) => check.OneOf? && text in check.allowed
    case Number(number) =>
      || (check.Between? && check.low <= number <= check.high)
      || (check.AtLeast? && check.low <= number)
  }

  predicate AllHold(check: Check, rows: seq<Row>) {
    forall r | r in rows :: Holds(check, r)
  }

  /** The primary key values a foreign key may refer to. */
  function KeyValues(table: Table): set<Value> {
    set r | r in table.rows && table.primaryKey in r :: r[table.primaryKey]
  }

  predicate Refers(key: ForeignKey, rows: seq<Row>, values: set<Value>) {
    forall r | r in rows :: key.column in r && (r[key.column] == Null || r[key.column] in values)
  }

  // ---------------------------------------------------------------- well-formed databases

  predicate ChecksFit(table: Table) {
    forall c | c in table.checks :: table.checks[c].column in Names(table.columns)
  }

  predicate ChecksHold(table: Table) {
    forall c | c in table.checks :: AllHold(table.checks[c], table.rows)
  }

  predicate KeysFit(table: Table) {
    forall k | k in table.foreignKeys :: table.foreignKeys[k].column in Names(table.columns)
  }

  predicate RowsFit(table: Table) {
    forall r | r in table.rows :: r.Keys == Names(table.columns)
  }

  /** Constraints have names of their own. */
  predicate ConstraintNamesOk(table: Table) {
    table.checks.Keys !! table.foreignKeys.Keys &&
    table.primaryKeyName !in table.checks && table.primaryKeyName !in table.foreignKeys &&
    (forall c | c in table.checks :: |c| <= MAX_IDENTIFIER) &&
    (forall k | k in table.foreignKeys :: |k| <= MAX_IDENTIFIER)
  }

  /** What a table says about itself. */
  predicate TableOk(table: Table) {
    DistinctNames(table.columns) && table.primaryKey in Names(table.columns) &&
    ConstraintNamesOk(table) && ChecksFit(table) && ChecksHold(table) && KeysFit(table) && RowsFit(table)
  }

  predicate KeyOk(db: Database, key: ForeignKey, rows: seq<Row>) {
    key.refTable in db.tables && db.tables[key.refTable].primaryKey == key.refColumn &&
    Refers(key, rows, KeyValues(db.tables[key.refTable]))
  }

  predicate KeysOk(db: Database, name: string)
    requires name in db.tables
  {
    forall k | k in db.tables[name].foreignKeys :: KeyOk(db, db.tables[name].foreignKeys[k], db.tables[name].rows)
  }

  predicate IndexOk(db: Database, index: Index) {
    index.table in db.tables && forall c | c in index.columns :: c in Names(db.tables[index.table].columns)
  }

  /** The primary key of the table has its index. */
  predicate KeyIndexed(db: Database, name: string)
    requires name in db.tables
  {
    var t := db.tables[name];
    t.primaryKeyName in db.indexes && db.indexes[t.primaryKeyName] == Index(name, [t.primaryKey])
  }

  predicate TablesOk(db: Database) {
    forall t {:trigger TableOk(db.tables[t])} | t in db.tables :: TableOk(db.tables[t])
  }

  predicate AllKeysOk(db: Database) {
    forall t {:trigger KeysOk(db, t)} | t in db.tables :: KeysOk(db, t)
  }

  predicate IndexesOk(db: Database) {
    forall i {:trigger IndexOk(db, db.indexes[i])} | i in db.indexes :: IndexOk(db, db.indexes[i])
  }

  predicate AllKeysIndexed(db: Database) {
    forall t {:trigger KeyIndexed(db, t)} | t in db.tables :: KeyIndexed(db, t)
  }

  /** Tables are consistent, references resolve, and tables and indexes share one name space. */
  predicate Wf(db: Database) {
    db.tables.Keys !! db.indexes.Keys && TablesOk(db) && AllKeysOk(db) && IndexesOk(db) && AllKeysIndexed(db)
  }

  // ---------------------------------------------------------------- the operations

  predicate RefersToTable(t: Table, name: string) {
    exists k | k in t.foreignKeys :: t.foreignKeys[k].refTable == name
  }

  /** Another table refers to this one. */
  predicate Referenced(db: Database, name: string) {
    exists t | t in db.tables :: t != name && RefersToTable(db.tables[t], name)
  }

  predicate FreeName(db: Database, name: string) {
    name !in db.tables && name !in db.indexes
  }

  /** No constraint of the table has this name, and it is not too long for one. */
  predicate FreeConstraint(t: Table, name: string) {
    name !in t.checks && name !in t.foreignKeys && name != t.primaryKeyName && |name| <= MAX_IDENTIFIER
  }

  /** The index belongs to a primary key. */
  predicate IsKeyIndex(db: Database, index: string) {
    exists t | t in db.tables :: db.tables[t].primaryKeyName == index
  }

  function WithoutColumn(columns: seq<Column>, name: string): seq<Column> {
    if columns == [] then []
    else (if columns[0].name == name then [] else [columns[0]]) + WithoutColumn(columns[1..], name)
  }

  function MapRows(rows: seq<Row>, f: Row -> Row): (mapped: seq<Row>)
    ensures |mapped| == |rows|
    ensures forall i :: 0 <= i < |rows| ==> mapped[i] == f(rows[i])
  {
    seq(|rows|, i requires 0 <= i < |rows| => f(rows[i]))
  }

  function Extended(row: Row, column: Column): Row {
    row[column.name := if column.serverDefault.Some? then column.serverDefault.value else Null]
  }

  function Rewritten(row: Row, name: string, from: string, to: string): Row {
    if name in row && row[name] == Text(from) then row[name := Text(to)] else row
  }

  function DropTableFrom(db: Database, name: string): Database {
    Database(db.tables - {name}, map i | i in db.indexes && db.indexes[i].table != name :: db.indexes[i])
  }

  function WithTable(db: Database, name: string, t: Table): Database {
    db.(tables := db.tables[name := t])
  }

  /** A table comes with the index of its primary key. */
  function WithNewTable(db: Database, name: string, t: Table): Database {
    WithTable(db, name, t).(indexes := db.indexes[t.primaryKeyName := Index(name, [t.primaryKey])])
  }

  function Widened(t: Table, column: Column): Table {
    t.(columns := t.columns + [column], rows := MapRows(t.rows, (r: Row) => Extended(r, column)))
  }

  /** Dropping a column takes the constraints on it along. */
  function Narrowed(t: Table, column: string): Table {
    Table(
      WithoutColumn(t.columns, column),
      t.primaryKey,
      t.primaryKeyName,
      map c | c in t.checks && t.checks[c].column != column :: t.checks[c],
      map k | k in t.foreignKeys && t.foreignKeys[k].column != column :: t.foreignKeys[k],
      MapRows(t.rows, (r: Row) => r - {column}))
  }

  function IndexesWithout(db: Database, name: string, column: string): map<string, Index> {
    map i | i in db.indexes && !(db.indexes[i].table == name && column in db.indexes[i].columns) :: db.indexes[i]
  }

  function Updated(t: Table, column: string, from: string, to: string): Table {
    t.(rows := MapRows(t.rows, (r: Row) => Rewritten(r, column, from, to)))
  }

  /** Whether the database accepts the statement. */
  predicate Accepts(db: Database, op: Op) {
    match op
    case CreateTable(name, t) =>
      FreeName(db, name) && FreeName(db, t.primaryKeyName) && t.primaryKeyName != name && t.rows == [] && TableOk(t) &&
      forall k | k in t.foreignKeys ::
        if t.foreignKeys[k].refTable == name then t.foreignKeys[k].refColumn == t.primaryKey
        else KeyOk(db, t.foreignKeys[k], [])
    case DropTable(name) => name in db.tables && !Referenced(db, name)
    case AddColumn(name, column) =>
      name in db.tables && column.name !in Names(db.tables[name].columns) &&
      (column.nullable || column.serverDefault.Some? || db.tables[name].rows == [])
    case DropColumn(name, column) =>
      name in db.tables && column in Names(db.tables[name].columns) && column != db.tables[name].primaryKey
    case CreateIndex(index, name, columns) =>
      name in db.tables && FreeName(db, index) && |index| <= MAX_IDENTIFIER && columns != [] &&
      forall c | c in columns :: c in Names(db.tables[name].columns)
    case DropIndex(index, _) => index in db.indexes && !IsKeyIndex(db, index)
    case CreateForeignKey(constraint, name, key) =>
      name in db.tables && FreeConstraint(db.tables[name], constraint) &&
      key.column in Names(db.tables[name].columns) && KeyOk(db, key, db.tables[name].rows)
    case DropForeignKey(constraint, name) => name in db.tables && constraint in db.tables[name].foreignKeys
    case CreateCheck(constraint, name, check) =>
      name in db.tables && FreeConstraint(db.tables[name], constraint) &&
      check.column in Names(db.tables[name].columns) && AllHold(check, db.tables[name].rows)
    case DropCheck(constraint, name) => name in db.tables && constraint in db.tables[name].checks
    case Update(name, column, from, to) =>
      name in db.tables && column in Names(db.tables[name].columns) &&
      var t := Updated(db.tables[name], column, from, to);
      ChecksHold(t) && AllKeysOk(WithTable(db, name, t))
  }

  function Effect(db: Database, op: Op): Database
    requires Accepts(db, op)
  {
    match op
    case CreateTable(name, t) => WithNewTable(db, name, t)
    case DropTable(name) => DropTableFrom(db, name)
    case AddColumn(name, column) => WithTable(db, name, Widened(db.tables[name], column))
    case DropColumn(name, column) =>
      WithTable(db.(indexes := IndexesWithout(db, name, column)), name, Narrowed(db.tables[name], column))
    case CreateIndex(index, name, columns) => db.(indexes := db.indexes[index := Index(name, columns)])
    case DropIndex(index, _) => db.(indexes := db.indexes - {index})
    case CreateForeignKey(constraint, name, key) =>
      var t := db.tables[name];
      WithTable(db, name, t.(foreignKeys := t.foreignKeys[constraint := key]))
    case DropForeignKey(constraint, name) =>
      var t := db.tables[name];
      WithTable(db, name, t.(foreignKeys := t.foreignKeys - {constraint}))
    case CreateCheck(constraint, name, check) =>
      var t := db.tables[name];
      WithTable(db, name, t.(checks := t.checks[constraint := check]))
    case DropCheck(constraint, name) =>
      var t := db.tables[name];
      WithTable(db, name, t.(checks := t.checks - {constraint}))
    case Update(name, column, from, to) => WithTable(db, name, Updated(db.tables[name], column, from, to))
  }

  function Apply(db: Database, op: Op): Option<Database> {
    if Accepts(db, op) then Some(Effect(db, op)) else None
  }

  /** The database after all the statements, None when one of them failed. */
  function Run(db: Database, ops: seq<Op>): Option<Database>
    decreases |ops|
  {
    if ops == [] then Some(db)
    else if !Accepts(db, ops[0]) then None
    else Run(Effect(db, ops[0]), ops[1..])
  }

  lemma {:induction false} RunAppend(db: Database, first: seq<Op>, second: seq<Op>)
    ensures Run(db, first + second) ==
            if Run(db, first).None? then None else Run(Run(db, first).value, second)
    decreases |first|
  {
    if first == [] {
      assert first + second == second;
    } else {
      assert (first + second)[1..] == first[1..] + second;
      if Accepts(db, first[0]) {
        RunAppend(Effect(db, first[0]), first[1..], second);
      }
    }
  }
}
