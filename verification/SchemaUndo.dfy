/** Programs of creating operations are undone by the reversed program of inverses. */
module SchemaUndo {
  import opened Wrappers
  import opened Schema
  import opened SchemaLaws

  predicate Creates(op: Op) {
    op.CreateTable? || op.AddColumn? || op.CreateIndex? || op.CreateForeignKey? || op.CreateCheck?
  }

  predicate AllCreate(ops: seq<Op>) {
    forall op | op in ops :: Creates(op)
  }

  function Inverse(op: Op): Op
    requires Creates(op)
  {
    match op
    case CreateTable(name, _) => DropTable(name)
    case AddColumn(name, column) => DropColumn(name, column.name)
    case CreateIndex(index, name, _) => DropIndex(index, name)
    case CreateForeignKey(constraint, name, _) => DropForeignKey(constraint, name)
    case CreateCheck(constraint, name, _) => DropCheck(constraint, name)
  }

  /** The inverses in reverse order. */
  function Undo(ops: seq<Op>): seq<Op>
    requires AllCreate(ops)
  {
    if ops == [] then [] else Undo(ops[1..]) + [Inverse(ops[0])]
  }

  lemma {:induction false} UndoAppend(first: seq<Op>, second: seq<Op>)
    requires AllCreate(first) && AllCreate(second)
    ensures AllCreate(first + second) && Undo(first + second) == Undo(second) + Undo(first)
  {
    if first == [] {
      assert first + second == second;
    } else {
      assert (first + second)[1..] == first[1..] + second;
      UndoAppend(first[1..], second);
    }
  }

  // ---------------------------------------------------------------- each inverse undoes its operation

  /** No index and no foreign key mentions a table that does not exist. */
  lemma Unmentioned(db: Database, name: string)
    requires AllKeysOk(db) && IndexesOk(db) && name !in db.tables
    ensures forall i | i in db.indexes :: db.indexes[i].table != name
    ensures forall n | n in db.tables :: !RefersToTable(db.tables[n], name)
  {
    IndexTables(db);
    forall n | n in db.tables ensures !RefersToTable(db.tables[n], name) {
      assert KeysOk(db, n);
    }
  }

  lemma DropNewTable(db: Database, name: string, t: Table)
    requires name !in db.tables && t.primaryKeyName !in db.indexes
    requires forall i | i in db.indexes :: db.indexes[i].table != name
    requires forall n | n in db.tables :: !RefersToTable(db.tables[n], name)
    ensures Apply(WithNewTable(db, name, t), DropTable(name)) == Some(db)
  {
    var db' := DropTableFrom(WithNewTable(db, name, t), name);
    assert db'.tables == db.tables;
    assert db'.indexes == db.indexes;
  }

  lemma UndoneTable(db: Database, name: string, t: Table)
    requires Wf(db) && Accepts(db, CreateTable(name, t))
    ensures Apply(Effect(db, CreateTable(name, t)), DropTable(name)) == Some(db)
  {
    Unmentioned(db, name);
    DropNewTable(db, name, t);
  }

  lemma {:induction false} WithoutNew(columns: seq<Column>, column: Column)
    requires column.name !in Names(columns)
    ensures WithoutColumn(columns + [column], column.name) == columns
  {
    if columns == [] {
    } else {
      assert columns[0] in columns;
      assert (columns + [column])[1..] == columns[1..] + [column];
      WithoutNew(columns[1..], column);
    }
  }

  lemma UndoneRows(rows: seq<Row>, column: Column)
    requires forall r | r in rows :: column.name !in r
    ensures MapRows(MapRows(rows, (r: Row) => Extended(r, column)), (r: Row) => r - {column.name}) == rows
  {
    forall i | 0 <= i < |rows| ensures Extended(rows[i], column) - {column.name} == rows[i] {
      assert rows[i] in rows;
    }
  }

  /** No constraint is on a column that does not exist. */
  lemma ConstraintsStay(t: Table, name: string)
    requires ChecksFit(t) && KeysFit(t) && name !in Names(t.columns)
    ensures (map c | c in t.checks && t.checks[c].column != name :: t.checks[c]) == t.checks
    ensures (map k | k in t.foreignKeys && t.foreignKeys[k].column != name :: t.foreignKeys[k]) == t.foreignKeys
  {
  }

  lemma RowsLack(t: Table, name: string)
    requires RowsFit(t) && name !in Names(t.columns)
    ensures forall r | r in t.rows :: name !in r
  {
  }

  lemma UndoneWidening(t: Table, column: Column)
    requires ChecksFit(t) && KeysFit(t) && RowsFit(t) && column.name !in Names(t.columns)
    ensures Narrowed(Widened(t, column), column.name) == t
  {
    var back := Narrowed(Widened(t, column), column.name);
    WithoutNew(t.columns, column);
    RowsLack(t, column.name);
    UndoneRows(t.rows, column);
    ConstraintsStay(t, column.name);
    assert back.columns == t.columns && back.rows == t.rows;
  }

  /** Writing a table back restores the database. */
  lemma PutBack(db: Database, name: string, t: Table)
    requires name in db.tables
    ensures WithTable(WithTable(db, name, t), name, db.tables[name]) == db
  {
    assert db.tables[name := t][name := db.tables[name]] == db.tables;
  }

  lemma NoIndexOnNew(db: Database, name: string, column: string, t: Table)
    requires IndexesOk(db) && name in db.tables && column !in Names(db.tables[name].columns)
    ensures IndexesWithout(WithTable(db, name, t), name, column) == db.indexes
  {
    forall i | i in db.indexes ensures !(db.indexes[i].table == name && column in db.indexes[i].columns) {
      assert IndexOk(db, db.indexes[i]);
    }
  }

  lemma DropNewColumn(db: Database, name: string, column: Column)
    requires name in db.tables && column.name !in Names(db.tables[name].columns)
    requires db.tables[name].primaryKey in Names(db.tables[name].columns)
    requires Narrowed(Widened(db.tables[name], column), column.name) == db.tables[name]
    requires IndexesWithout(WithTable(db, name, Widened(db.tables[name], column)), name, column.name) == db.indexes
    ensures Apply(WithTable(db, name, Widened(db.tables[name], column)), DropColumn(name, column.name)) == Some(db)
  {
    NamesOfAppend(db.tables[name].columns, column);
    PutBack(db, name, Widened(db.tables[name], column));
  }

  lemma UndoneColumn(db: Database, name: string, column: Column)
    requires Wf(db) && Accepts(db, AddColumn(name, column))
    ensures Apply(Effect(db, AddColumn(name, column)), DropColumn(name, column.name)) == Some(db)
  {
    OwnKeys(db, name);
    UndoneWidening(db.tables[name], column);
    NoIndexOnNew(db, name, column.name, Widened(db.tables[name], column));
    DropNewColumn(db, name, column);
  }

  /** The new index is not one of a primary key. */
  lemma UndoneIndex(db: Database, index: string, name: string, columns: seq<string>)
    requires AllKeysIndexed(db) && Accepts(db, CreateIndex(index, name, columns))
    ensures Apply(Effect(db, CreateIndex(index, name, columns)), DropIndex(index, name)) == Some(db)
  {
    forall t | t in db.tables ensures db.tables[t].primaryKeyName != index {
      assert KeyIndexed(db, t);
    }
    assert db.indexes[index := Index(name, columns)] - {index} == db.indexes;
  }

  lemma UndoneForeignKey(db: Database, constraint: string, name: string, key: ForeignKey)
    requires Accepts(db, CreateForeignKey(constraint, name, key))
    ensures Apply(Effect(db, CreateForeignKey(constraint, name, key)), DropForeignKey(constraint, name)) == Some(db)
  {
    var t := db.tables[name];
    assert t.foreignKeys[constraint := key] - {constraint} == t.foreignKeys;
    PutBack(db, name, t.(foreignKeys := t.foreignKeys[constraint := key]));
  }

  lemma UndoneCheck(db: Database, constraint: string, name: string, check: Check)
    requires Accepts(db, CreateCheck(constraint, name, check))
    ensures Apply(Effect(db, CreateCheck(constraint, name, check)), DropCheck(constraint, name)) == Some(db)
  {
    var t := db.tables[name];
    assert t.checks[constraint := check] - {constraint} == t.checks;
    PutBack(db, name, t.(checks := t.checks[constraint := check]));
  }

  lemma InverseUndoes(db: Database, op: Op)
    requires Wf(db) && Creates(op) && Accepts(db, op)
    ensures Apply(Effect(db, op), Inverse(op)) == Some(db)
  {
    match op
    case CreateTable(name, t) => UndoneTable(db, name, t);
    case AddColumn(name, column) => UndoneColumn(db, name, column);
    case CreateIndex(index, name, columns) => UndoneIndex(db, index, name, columns);
    case CreateForeignKey(constraint, name, key) => UndoneForeignKey(db, constraint, name, key);
    case CreateCheck(constraint, name, check) => UndoneCheck(db, constraint, name, check);
  }

  /** One more operation after a program that gave this database. */
  lemma UndoFirst(after: Database, db: Database, undo: seq<Op>, last: Op)
    requires Run(after, undo) == Some(db)
    ensures Run(after, undo + [last]) == Apply(db, last)
  {
    RunAppend(after, undo, [last]);
    assert [last][1..] == [];
  }

  /** Wherever a program of creating operations succeeds, the reversed inverses succeed after it at
      every step and restore the database. */
  lemma {:induction false} UndoRestores(db: Database, ops: seq<Op>)
    requires Wf(db) && AllCreate(ops) && Run(db, ops).Some?
    ensures Run(Run(db, ops).value, Undo(ops)) == Some(db)
    decreases |ops|
  {
    if ops == [] {
    } else {
      var db1, rest := Effect(db, ops[0]), ops[1..];
      KeepsWf(db, ops[0]);
      UndoRestores(db1, rest);
      InverseUndoes(db, ops[0]);
      UndoFirst(Run(db, ops).value, db1, Undo(rest), Inverse(ops[0]));
    }
  }
}
