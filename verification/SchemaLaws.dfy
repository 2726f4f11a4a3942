/** Every operation keeps the database well formed. */
module SchemaLaws {
  import opened Schema

  // ---------------------------------------------------------------- what every operation keeps

  lemma NamesOfAppend(columns: seq<Column>, column: Column)
    ensures Names(columns + [column]) == Names(columns) + {column.name}
  {
    assert forall c :: c in columns + [column] <==> c in columns || c == column;
  }

  lemma {:induction false} NamesWithout(columns: seq<Column>, name: string)
    ensures forall c :: c in WithoutColumn(columns, name) <==> c in columns && c.name != name
    ensures Names(WithoutColumn(columns, name)) == Names(columns) - {name}
  {
    if columns == [] {
    } else {
      NamesWithout(columns[1..], name);
      assert columns == [columns[0]] + columns[1..];
    }
  }

  lemma {:induction false} DistinctWithout(columns: seq<Column>, name: string)
    requires DistinctNames(columns)
    ensures DistinctNames(WithoutColumn(columns, name))
  {
    if columns == [] {
    } else {
      DistinctWithout(columns[1..], name);
      NamesWithout(columns[1..], name);
    }
  }

  /** Nothing that refers to a table notices a change that keeps its key. */
  predicate SameTarget(t: Table, t': Table) {
    t'.primaryKey == t.primaryKey && t'.primaryKeyName == t.primaryKeyName && KeyValues(t') == KeyValues(t)
  }

  lemma KeysFrame(db: Database, db': Database, name: string)
    requires name in db.tables && KeysOk(db, name) && name in db'.tables
    requires db'.tables[name].foreignKeys == db.tables[name].foreignKeys
    requires db'.tables[name].rows == db.tables[name].rows
    requires forall k | k in db.tables[name].foreignKeys ::
               var ref := db.tables[name].foreignKeys[k].refTable;
               ref in db.tables ==> ref in db'.tables && SameTarget(db.tables[ref], db'.tables[ref])
    ensures KeysOk(db', name)
  {
    forall k | k in db'.tables[name].foreignKeys
      ensures KeyOk(db', db'.tables[name].foreignKeys[k], db'.tables[name].rows)
    {
      assert KeyOk(db, db.tables[name].foreignKeys[k], db.tables[name].rows);
    }
  }

  lemma ReplaceKeys(db: Database, name: string, t: Table)
    requires AllKeysOk(db) && name in db.tables && SameTarget(db.tables[name], t)
    requires forall k | k in t.foreignKeys :: KeyOk(db, t.foreignKeys[k], t.rows)
    ensures AllKeysOk(WithTable(db, name, t))
  {
    var db' := WithTable(db, name, t);
    forall n | n in db'.tables ensures KeysOk(db', n) {
      if n == name {
        forall k | k in t.foreignKeys ensures KeyOk(db', t.foreignKeys[k], t.rows) {
          assert KeyOk(db, t.foreignKeys[k], t.rows);
        }
      } else {
        KeysFrame(db, db', n);
      }
    }
  }

  /** The indexes of a table fit the columns of its replacement. */
  predicate IndexesFit(db: Database, name: string, t: Table) {
    forall i | i in db.indexes && db.indexes[i].table == name ::
      forall c | c in db.indexes[i].columns :: c in Names(t.columns)
  }

  lemma ReplaceIndexes(db: Database, name: string, t: Table)
    requires IndexesOk(db) && name in db.tables && IndexesFit(db, name, t)
    ensures IndexesOk(WithTable(db, name, t))
  {
    var db' := WithTable(db, name, t);
    forall i | i in db'.indexes ensures IndexOk(db', db'.indexes[i]) {
      assert IndexOk(db, db.indexes[i]);
    }
  }

  lemma ReplaceTables(db: Database, name: string, t: Table)
    requires TablesOk(db) && TableOk(t)
    ensures TablesOk(WithTable(db, name, t))
  {
    var db' := WithTable(db, name, t);
    forall n | n in db'.tables ensures TableOk(db'.tables[n]) {
      if n != name {
        assert db'.tables[n] == db.tables[n];
      }
    }
  }

  lemma ReplaceKeyIndexes(db: Database, name: string, t: Table)
    requires AllKeysIndexed(db) && name in db.tables && SameTarget(db.tables[name], t)
    ensures AllKeysIndexed(WithTable(db, name, t))
  {
    var db' := WithTable(db, name, t);
    forall n | n in db'.tables ensures KeyIndexed(db', n) {
      assert KeyIndexed(db, n);
    }
  }

  predicate ReplacesKeys(db: Database, t: Table) {
    forall k | k in t.foreignKeys :: KeyOk(db, t.foreignKeys[k], t.rows)
  }

  /** Replacing a table by one with the same key. */
  lemma ReplaceTable(db: Database, name: string, t: Table)
    requires Wf(db) && name in db.tables && SameTarget(db.tables[name], t) && TableOk(t)
    requires ReplacesKeys(db, t) && IndexesFit(db, name, t)
    ensures Wf(WithTable(db, name, t))
  {
    ReplaceTables(db, name, t);
    ReplaceKeys(db, name, t);
    ReplaceIndexes(db, name, t);
    ReplaceKeyIndexes(db, name, t);
    assert WithTable(db, name, t).tables.Keys == db.tables.Keys;
  }

  /** References do not depend on indexes. */
  lemma KeysOfIndexes(db: Database, indexes: map<string, Index>)
    requires AllKeysOk(db)
    ensures AllKeysOk(db.(indexes := indexes))
  {
    var db' := db.(indexes := indexes);
    forall n | n in db'.tables ensures KeysOk(db', n) {
      KeysFrame(db, db', n);
    }
  }

  lemma FewerIndexes(db: Database, indexes: map<string, Index>)
    requires Wf(db) && indexes.Keys <= db.indexes.Keys && forall i | i in indexes :: indexes[i] == db.indexes[i]
    requires forall t | t in db.tables :: db.tables[t].primaryKeyName in indexes
    ensures Wf(db.(indexes := indexes))
  {
    var db' := db.(indexes := indexes);
    KeysOfIndexes(db, indexes);
    forall i | i in db'.indexes ensures IndexOk(db', db'.indexes[i]) {
      assert IndexOk(db, db.indexes[i]);
    }
    forall n | n in db'.tables ensures KeyIndexed(db', n) {
      assert KeyIndexed(db, n);
    }
  }

  lemma IndexesFitAll(db: Database, name: string, t: Table)
    requires IndexesOk(db) && name in db.tables && Names(db.tables[name].columns) <= Names(t.columns)
    ensures IndexesFit(db, name, t)
  {
    forall i | i in db.indexes && db.indexes[i].table == name
      ensures forall c | c in db.indexes[i].columns :: c in Names(t.columns)
    {
      assert IndexOk(db, db.indexes[i]);
    }
  }

  /** A table that keeps its columns and rows but not all of its constraints. */
  lemma ReplaceConstraints(db: Database, name: string, t: Table)
    requires Wf(db) && name in db.tables && TableOk(t) && ReplacesKeys(db, t)
    requires t.columns == db.tables[name].columns && t.rows == db.tables[name].rows
    requires t.primaryKey == db.tables[name].primaryKey && t.primaryKeyName == db.tables[name].primaryKeyName
    ensures Wf(WithTable(db, name, t))
  {
    IndexesFitAll(db, name, t);
    ReplaceTable(db, name, t);
  }

  lemma OwnKeys(db: Database, name: string)
    requires Wf(db) && name in db.tables
    ensures TableOk(db.tables[name]) && ReplacesKeys(db, db.tables[name])
  {
    assert KeysOk(db, name);
  }

  lemma WithCheckOk(t: Table, constraint: string, check: Check)
    requires TableOk(t) && FreeConstraint(t, constraint)
    requires check.column in Names(t.columns) && AllHold(check, t.rows)
    ensures TableOk(t.(checks := t.checks[constraint := check]))
  {
  }

  lemma WfCreateCheck(db: Database, constraint: string, name: string, check: Check)
    requires Wf(db) && Accepts(db, CreateCheck(constraint, name, check))
    ensures Wf(Effect(db, CreateCheck(constraint, name, check)))
  {
    OwnKeys(db, name);
    var t := db.tables[name];
    WithCheckOk(t, constraint, check);
    ReplaceConstraints(db, name, t.(checks := t.checks[constraint := check]));
  }

  lemma WithoutCheckOk(t: Table, constraint: string)
    requires TableOk(t)
    ensures TableOk(t.(checks := t.checks - {constraint}))
  {
  }

  lemma WfDropCheck(db: Database, constraint: string, name: string)
    requires Wf(db) && Accepts(db, DropCheck(constraint, name))
    ensures Wf(Effect(db, DropCheck(constraint, name)))
  {
    OwnKeys(db, name);
    var t := db.tables[name];
    WithoutCheckOk(t, constraint);
    ReplaceConstraints(db, name, t.(checks := t.checks - {constraint}));
  }

  lemma WithKeyOk(t: Table, constraint: string, key: ForeignKey)
    requires TableOk(t) && FreeConstraint(t, constraint) && key.column in Names(t.columns)
    ensures TableOk(t.(foreignKeys := t.foreignKeys[constraint := key]))
  {
  }

  lemma WfCreateForeignKey(db: Database, constraint: string, name: string, key: ForeignKey)
    requires Wf(db) && Accepts(db, CreateForeignKey(constraint, name, key))
    ensures Wf(Effect(db, CreateForeignKey(constraint, name, key)))
  {
    OwnKeys(db, name);
    var t := db.tables[name];
    WithKeyOk(t, constraint, key);
    ReplaceConstraints(db, name, t.(foreignKeys := t.foreignKeys[constraint := key]));
  }

  lemma WithoutKeyOk(t: Table, constraint: string)
    requires TableOk(t)
    ensures TableOk(t.(foreignKeys := t.foreignKeys - {constraint}))
  {
  }

  lemma WfDropForeignKey(db: Database, constraint: string, name: string)
    requires Wf(db) && Accepts(db, DropForeignKey(constraint, name))
    ensures Wf(Effect(db, DropForeignKey(constraint, name)))
  {
    OwnKeys(db, name);
    var t := db.tables[name];
    WithoutKeyOk(t, constraint);
    ReplaceConstraints(db, name, t.(foreignKeys := t.foreignKeys - {constraint}));
  }

  /** One more index, under a free name. */
  lemma MoreIndexes(db: Database, index: string, on: Index)
    requires IndexesOk(db) && AllKeysIndexed(db) && index !in db.indexes && IndexOk(db, on)
    ensures var db' := db.(indexes := db.indexes[index := on]); IndexesOk(db') && AllKeysIndexed(db')
  {
    var db' := db.(indexes := db.indexes[index := on]);
    forall i | i in db'.indexes ensures IndexOk(db', db'.indexes[i]) {
      if i != index {
        assert IndexOk(db, db.indexes[i]);
      }
    }
    forall n | n in db'.tables ensures KeyIndexed(db', n) {
      assert KeyIndexed(db, n);
    }
  }

  lemma WfCreateIndex(db: Database, index: string, name: string, columns: seq<string>)
    requires Wf(db) && Accepts(db, CreateIndex(index, name, columns))
    ensures Wf(Effect(db, CreateIndex(index, name, columns)))
  {
    KeysOfIndexes(db, db.indexes[index := Index(name, columns)]);
    MoreIndexes(db, index, Index(name, columns));
  }

  lemma WfDropIndex(db: Database, index: string, name: string)
    requires Wf(db) && Accepts(db, DropIndex(index, name))
    ensures Wf(Effect(db, DropIndex(index, name)))
  {
    forall t | t in db.tables ensures db.tables[t].primaryKeyName in db.indexes - {index} {
      assert KeyIndexed(db, t);
    }
    FewerIndexes(db, db.indexes - {index});
  }

  lemma NewTableKeys(db: Database, name: string, t: Table)
    requires AllKeysOk(db) && Accepts(db, CreateTable(name, t))
    ensures AllKeysOk(WithTable(db, name, t))
  {
    var db' := WithTable(db, name, t);
    forall n | n in db'.tables ensures KeysOk(db', n) {
      if n != name {
        assert KeysOk(db, n);
        KeysFrame(db, db', n);
      } else {
        NewTableOwnKeys(db, name, t);
      }
    }
  }

  lemma NewTableOwnKeys(db: Database, name: string, t: Table)
    requires Accepts(db, CreateTable(name, t))
    ensures KeysOk(WithTable(db, name, t), name)
  {
    var db' := WithTable(db, name, t);
    forall k | k in t.foreignKeys ensures KeyOk(db', t.foreignKeys[k], []) {
    }
  }

  lemma IndexesKept(db: Database, db': Database)
    requires IndexesOk(db) && db'.indexes.Keys <= db.indexes.Keys
    requires forall i | i in db'.indexes ::
               db'.indexes[i] == db.indexes[i] && db.indexes[i].table in db'.tables &&
               (db.indexes[i].table in db.tables ==>
                  db'.tables[db.indexes[i].table] == db.tables[db.indexes[i].table])
    ensures IndexesOk(db')
  {
    forall i | i in db'.indexes ensures IndexOk(db', db'.indexes[i]) {
      assert IndexOk(db, db.indexes[i]);
    }
  }

  lemma IndexTables(db: Database)
    requires IndexesOk(db)
    ensures forall i | i in db.indexes :: db.indexes[i].table in db.tables
  {
    forall i | i in db.indexes ensures db.indexes[i].table in db.tables {
      assert IndexOk(db, db.indexes[i]);
    }
  }

  lemma NewTableIndexes(db: Database, name: string, t: Table)
    requires IndexesOk(db) && name !in db.tables
    ensures IndexesOk(WithTable(db, name, t))
  {
    IndexTables(db);
    IndexesKept(db, WithTable(db, name, t));
  }

  /** With the index of its primary key the new table is complete. */
  lemma NewKeyIndexed(db: Database, name: string, t: Table)
    requires AllKeysIndexed(db) && IndexesOk(db) && name !in db.tables && t.primaryKeyName !in db.indexes
    requires t.primaryKey in Names(t.columns)
    ensures IndexesOk(WithNewTable(db, name, t)) && AllKeysIndexed(WithNewTable(db, name, t))
  {
    var db' := WithNewTable(db, name, t);
    NewTableIndexes(db, name, t);
    forall i | i in db'.indexes ensures IndexOk(db', db'.indexes[i]) {
      if i != t.primaryKeyName {
        assert IndexOk(WithTable(db, name, t), db.indexes[i]);
      }
    }
    forall n | n in db'.tables ensures KeyIndexed(db', n) {
      if n != name {
        assert KeyIndexed(db, n);
      }
    }
  }

  lemma DroppedTableIndexes(db: Database, name: string)
    requires IndexesOk(db)
    ensures IndexesOk(DropTableFrom(db, name))
  {
    IndexTables(db);
    IndexesKept(db, DropTableFrom(db, name));
  }

  lemma DroppedTableTables(db: Database, name: string)
    requires TablesOk(db)
    ensures TablesOk(DropTableFrom(db, name))
  {
  }

  lemma WfCreateTable(db: Database, name: string, t: Table)
    requires Wf(db) && Accepts(db, CreateTable(name, t))
    ensures Wf(Effect(db, CreateTable(name, t)))
  {
    NewTableKeys(db, name, t);
    KeysOfIndexes(WithTable(db, name, t), WithNewTable(db, name, t).indexes);
    ReplaceTables(db, name, t);
    NewKeyIndexed(db, name, t);
  }

  lemma DroppedTableKeys(db: Database, name: string)
    requires AllKeysOk(db) && Accepts(db, DropTable(name))
    ensures AllKeysOk(DropTableFrom(db, name))
  {
    var db' := DropTableFrom(db, name);
    forall n | n in db'.tables ensures KeysOk(db', n) {
      assert KeysOk(db, n);
      KeysFrame(db, db', n);
    }
  }

  lemma DroppedKeyIndexes(db: Database, name: string)
    requires AllKeysIndexed(db)
    ensures AllKeysIndexed(DropTableFrom(db, name))
  {
    var db' := DropTableFrom(db, name);
    forall n | n in db'.tables ensures KeyIndexed(db', n) {
      assert KeyIndexed(db, n);
    }
  }

  lemma WfDropTable(db: Database, name: string)
    requires Wf(db) && Accepts(db, DropTable(name))
    ensures Wf(Effect(db, DropTable(name)))
  {
    DroppedTableKeys(db, name);
    DroppedTableTables(db, name);
    DroppedTableIndexes(db, name);
    DroppedKeyIndexes(db, name);
  }

  // ---------------------------------------------------------------- columns

  /** A value that a row map keeps in every row is kept as a key value. */
  lemma KeyValuesMapped(t: Table, t': Table, f: Row -> Row)
    requires t'.rows == MapRows(t.rows, f)
    requires t'.primaryKey == t.primaryKey && t'.primaryKeyName == t.primaryKeyName
    requires forall r | r in t.rows ::
               t.primaryKey in r && t.primaryKey in f(r) && f(r)[t.primaryKey] == r[t.primaryKey]
    ensures SameTarget(t, t')
  {
    forall v | v in KeyValues(t) ensures v in KeyValues(t') {
      var r :| r in t.rows && t.primaryKey in r && r[t.primaryKey] == v;
      assert f(r) in t'.rows;
    }
    forall v | v in KeyValues(t') ensures v in KeyValues(t) {
      var r' :| r' in t'.rows && t.primaryKey in r' && r'[t.primaryKey] == v;
      var i :| 0 <= i < |t'.rows| && t'.rows[i] == r';
      assert t.rows[i] in t.rows;
    }
  }

  /** Rows that keep a column keep what refers from it. */
  lemma RefersMapped(key: ForeignKey, rows: seq<Row>, f: Row -> Row, values: set<Value>)
    requires Refers(key, rows, values)
    requires forall r | r in rows && key.column in r :: key.column in f(r) && f(r)[key.column] == r[key.column]
    ensures Refers(key, MapRows(rows, f), values)
  {
    forall r | r in MapRows(rows, f) ensures key.column in r && (r[key.column] == Null || r[key.column] in values) {
      var i :| 0 <= i < |rows| && r == f(rows[i]);
      assert rows[i] in rows;
    }
  }

  lemma HoldsMapped(check: Check, rows: seq<Row>, f: Row -> Row)
    requires AllHold(check, rows)
    requires forall r | r in rows && check.column in r :: check.column in f(r) && f(r)[check.column] == r[check.column]
    ensures AllHold(check, MapRows(rows, f))
  {
    forall r | r in MapRows(rows, f) ensures Holds(check, r) {
      var i :| 0 <= i < |rows| && r == f(rows[i]);
      assert rows[i] in rows && Holds(check, rows[i]);
    }
  }

  lemma DistinctWith(columns: seq<Column>, column: Column)
    requires DistinctNames(columns) && column.name !in Names(columns)
    ensures DistinctNames(columns + [column])
  {
    var all := columns + [column];
    forall i, j | 0 <= i < j < |all| ensures all[i].name != all[j].name {
      assert all[i] in columns;
    }
  }

  lemma WidenedChecksHold(t: Table, column: Column)
    requires ChecksFit(t) && ChecksHold(t) && column.name !in Names(t.columns)
    ensures ChecksHold(Widened(t, column))
  {
    var t', f := Widened(t, column), (r: Row) => Extended(r, column);
    forall c | c in t'.checks ensures AllHold(t'.checks[c], t'.rows) {
      HoldsMapped(t.checks[c], t.rows, f);
    }
  }

  lemma WidenedRowsFit(t: Table, column: Column)
    requires RowsFit(t)
    ensures RowsFit(Widened(t, column))
  {
    var t' := Widened(t, column);
    NamesOfAppend(t.columns, column);
    forall r | r in t'.rows ensures r.Keys == Names(t'.columns) {
      var i :| 0 <= i < |t.rows| && r == Extended(t.rows[i], column);
      assert t.rows[i] in t.rows;
    }
  }

  lemma WidenedTarget(t: Table, column: Column)
    requires TableOk(t) && column.name !in Names(t.columns)
    ensures SameTarget(t, Widened(t, column))
  {
    KeyValuesMapped(t, Widened(t, column), (r: Row) => Extended(r, column));
  }

  lemma WidenedOk(t: Table, column: Column)
    requires TableOk(t) && column.name !in Names(t.columns)
    ensures TableOk(Widened(t, column)) && SameTarget(t, Widened(t, column))
  {
    NamesOfAppend(t.columns, column);
    DistinctWith(t.columns, column);
    WidenedChecksHold(t, column);
    WidenedRowsFit(t, column);
    WidenedTarget(t, column);
  }

  lemma WfAddColumn(db: Database, name: string, column: Column)
    requires Wf(db) && Accepts(db, AddColumn(name, column))
    ensures Wf(Effect(db, AddColumn(name, column)))
  {
    var t := db.tables[name];
    var t' := Widened(t, column);
    OwnKeys(db, name);
    WidenedOk(t, column);
    NamesOfAppend(t.columns, column);
    IndexesFitAll(db, name, t');
    forall k | k in t'.foreignKeys ensures KeyOk(db, t'.foreignKeys[k], t'.rows) {
      RefersMapped(t.foreignKeys[k], t.rows, (r: Row) => Extended(r, column),
        KeyValues(db.tables[t.foreignKeys[k].refTable]));
    }
    ReplaceTable(db, name, t');
  }

  lemma NarrowedOk(t: Table, column: string)
    requires TableOk(t) && column != t.primaryKey
    ensures TableOk(Narrowed(t, column)) && SameTarget(t, Narrowed(t, column))
  {
    var t', f := Narrowed(t, column), (r: Row) => r - {column};
    NamesWithout(t.columns, column);
    DistinctWithout(t.columns, column);
    KeyValuesMapped(t, t', f);
    forall c | c in t'.checks ensures AllHold(t'.checks[c], t'.rows) {
      HoldsMapped(t.checks[c], t.rows, f);
    }
  }

  lemma WfDropColumn(db: Database, name: string, column: string)
    requires Wf(db) && Accepts(db, DropColumn(name, column))
    ensures Wf(Effect(db, DropColumn(name, column)))
  {
    var t := db.tables[name];
    var t' := Narrowed(t, column);
    var indexes := IndexesWithout(db, name, column);
    var db1 := db.(indexes := indexes);
    forall n | n in db.tables ensures db.tables[n].primaryKeyName in indexes {
      assert KeyIndexed(db, n);
    }
    FewerIndexes(db, indexes);
    OwnKeys(db1, name);
    NarrowedOk(t, column);
    NamesWithout(t.columns, column);
    forall i | i in indexes && indexes[i].table == name
      ensures forall c | c in indexes[i].columns :: c in Names(t'.columns)
    {
      assert IndexOk(db1, indexes[i]);
    }
    forall k | k in t'.foreignKeys ensures KeyOk(db1, t'.foreignKeys[k], t'.rows) {
      RefersMapped(t.foreignKeys[k], t.rows, (r: Row) => r - {column}, KeyValues(db.tables[t.foreignKeys[k].refTable]));
    }
    ReplaceTable(db1, name, t');
  }

  lemma UpdatedOk(t: Table, column: string, from: string, to: string)
    requires TableOk(t) && ChecksHold(Updated(t, column, from, to))
    ensures TableOk(Updated(t, column, from, to))
  {
  }

  lemma UpdatedKeyIndexes(db: Database, name: string, column: string, from: string, to: string)
    requires AllKeysIndexed(db) && name in db.tables
    ensures AllKeysIndexed(WithTable(db, name, Updated(db.tables[name], column, from, to)))
  {
    var db' := WithTable(db, name, Updated(db.tables[name], column, from, to));
    forall n | n in db'.tables ensures KeyIndexed(db', n) {
      assert KeyIndexed(db, n);
    }
  }

  lemma WfUpdate(db: Database, name: string, column: string, from: string, to: string)
    requires Wf(db) && Accepts(db, Update(name, column, from, to))
    ensures Wf(Effect(db, Update(name, column, from, to)))
  {
    var t' := Updated(db.tables[name], column, from, to);
    UpdatedOk(db.tables[name], column, from, to);
    ReplaceTables(db, name, t');
    IndexesFitAll(db, name, t');
    ReplaceIndexes(db, name, t');
    UpdatedKeyIndexes(db, name, column, from, to);
    assert WithTable(db, name, t').tables.Keys == db.tables.Keys;
  }

  /** Every accepted statement keeps the database well formed. */
  lemma KeepsWf(db: Database, op: Op)
    requires Wf(db) && Accepts(db, op)
    ensures Wf(Effect(db, op))
  {
    match op
    case CreateTable(name, t) => WfCreateTable(db, name, t);
    case DropTable(name) => WfDropTable(db, name);
    case AddColumn(name, column) => WfAddColumn(db, name, column);
    case DropColumn(name, column) => WfDropColumn(db, name, column);
    case CreateIndex(index, name, columns) => WfCreateIndex(db, index, name, columns);
    case DropIndex(index, name) => WfDropIndex(db, index, name);
    case CreateForeignKey(constraint, name, key) => WfCreateForeignKey(db, constraint, name, key);
    case DropForeignKey(constraint, name) => WfDropForeignKey(db, constraint, name);
    case CreateCheck(constraint, name, check) => WfCreateCheck(db, constraint, name, check);
    case DropCheck(constraint, name) => WfDropCheck(db, constraint, name);
    case Update(name, column, from, to) => WfUpdate(db, name, column, from, to);
  }

  lemma {:induction false} RunKeepsWf(db: Database, ops: seq<Op>)
    requires Wf(db) && Run(db, ops).Some?
    ensures Wf(Run(db, ops).value)
    decreases |ops|
  {
    if ops == [] {
    } else {
      KeepsWf(db, ops[0]);
      RunKeepsWf(Effect(db, ops[0]), ops[1..]);
    }
  }

  /** So after any program on a consistent database every row has the columns of its table, satisfies all its
      checks, and refers with each key to nothing or to a row that is there. */
  lemma RowsStayConsistent(db: Database, ops: seq<Op>, name: string, row: Row)
    requires Wf(db) && Run(db, ops).Some?
    requires name in Run(db, ops).value.tables && row in Run(db, ops).value.tables[name].rows
    ensures var tables := Run(db, ops).value.tables;
            var t := tables[name];
            (forall column :: column in row <==> exists c | c in t.columns :: c.name == column) &&
            (forall c | c in t.checks :: Holds(t.checks[c], row)) &&
            forall k | k in t.foreignKeys ::
              var key := t.foreignKeys[k];
              key.column in row && key.refTable in tables && tables[key.refTable].primaryKey == key.refColumn &&
              (row[key.column] == Null ||
               exists other | other in tables[key.refTable].rows ::
                 key.refColumn in other && other[key.refColumn] == row[key.column])
  {
    RunKeepsWf(db, ops);
    RowConsistent(Run(db, ops).value, name, row);
  }

  lemma RowConsistent(db: Database, name: string, row: Row)
    requires Wf(db) && name in db.tables && row in db.tables[name].rows
    ensures var t := db.tables[name];
            (forall column :: column in row <==> exists c | c in t.columns :: c.name == column) &&
            (forall c | c in t.checks :: Holds(t.checks[c], row)) &&
            forall k | k in t.foreignKeys ::
              var key := t.foreignKeys[k];
              key.column in row && key.refTable in db.tables && db.tables[key.refTable].primaryKey == key.refColumn &&
              (row[key.column] == Null ||
               exists other | other in db.tables[key.refTable].rows ::
                 key.refColumn in other && other[key.refColumn] == row[key.column])
  {
    assert TableOk(db.tables[name]) && KeysOk(db, name);
    assert row.Keys == Names(db.tables[name].columns);
    forall k | k in db.tables[name].foreignKeys
      ensures KeyOk(db, db.tables[name].foreignKeys[k], db.tables[name].rows)
    {
    }
  }
}
