/** Undoing a program long after it ran: the data may have changed in any way meanwhile. */
module SchemaShape {
  import opened Schema
  import opened SchemaUndo

  function Bare(t: Table): Table {
    t.(rows := [])
  }

  /** The database without its rows. */
  function Shape(db: Database): Database {
    Database(map t | t in db.tables :: Bare(db.tables[t]), db.indexes)
  }

  lemma SameBare(a: Table, b: Table)
    ensures Bare(a) == Bare(b) <==>
            a.columns == b.columns && a.primaryKey == b.primaryKey && a.primaryKeyName == b.primaryKeyName &&
            a.checks == b.checks && a.foreignKeys == b.foreignKeys
  {
  }

  /** Two databases have the same shape exactly when only the rows of their tables differ. */
  lemma SameShapeExactly(db: Database, other: Database)
    ensures Shape(db) == Shape(other) <==>
            db.indexes == other.indexes && db.tables.Keys == other.tables.Keys &&
            forall t | t in db.tables ::
              var a, b := db.tables[t], other.tables[t];
              a.columns == b.columns && a.primaryKey == b.primaryKey && a.primaryKeyName == b.primaryKeyName &&
              a.checks == b.checks && a.foreignKeys == b.foreignKeys
  {
    forall t | t in db.tables && t in other.tables
      ensures Shape(db).tables[t] == Shape(other).tables[t] <==> Bare(db.tables[t]) == Bare(other.tables[t])
    {
    }
    assert Shape(db).tables.Keys == db.tables.Keys && Shape(other).tables.Keys == other.tables.Keys;
    if db.tables.Keys == other.tables.Keys {
      forall t | t in db.tables
        ensures Bare(db.tables[t]) == Bare(other.tables[t]) <==>
                var a, b := db.tables[t], other.tables[t];
                a.columns == b.columns && a.primaryKey == b.primaryKey && a.primaryKeyName == b.primaryKeyName &&
                a.checks == b.checks && a.foreignKeys == b.foreignKeys
      {
        SameBare(db.tables[t], other.tables[t]);
      }
    }
  }

  /** The statements whose acceptance does not depend on any row. */
  predicate Drops(op: Op) {
    op.DropTable? || op.DropColumn? || op.DropIndex? || op.DropForeignKey? || op.DropCheck?
  }

  predicate AllDrop(ops: seq<Op>) {
    forall op | op in ops :: Drops(op)
  }

  lemma ShapeWith(db: Database, name: string, t: Table)
    ensures Shape(WithTable(db, name, t)) == WithTable(Shape(db), name, Bare(t))
  {
  }

  lemma ShapeReferenced(db: Database, name: string)
    ensures Referenced(Shape(db), name) <==> Referenced(db, name)
  {
    forall t | t in db.tables ensures RefersToTable(Shape(db).tables[t], name) <==> RefersToTable(db.tables[t], name) {
      assert Shape(db).tables[t].foreignKeys == db.tables[t].foreignKeys;
    }
    if Referenced(db, name) {
      var t :| t in db.tables && t != name && RefersToTable(db.tables[t], name);
      assert t in Shape(db).tables;
    }
  }

  lemma ShapeKeyIndex(db: Database, index: string)
    ensures IsKeyIndex(Shape(db), index) <==> IsKeyIndex(db, index)
  {
    if IsKeyIndex(db, index) {
      var t :| t in db.tables && db.tables[t].primaryKeyName == index;
      assert t in Shape(db).tables && Shape(db).tables[t].primaryKeyName == index;
    }
    if IsKeyIndex(Shape(db), index) {
      var t :| t in Shape(db).tables && Shape(db).tables[t].primaryKeyName == index;
      assert db.tables[t].primaryKeyName == index;
    }
  }

  lemma ShapeDropColumn(db: Database, name: string, column: string)
    requires Accepts(db, DropColumn(name, column))
    ensures Accepts(Shape(db), DropColumn(name, column))
    ensures Shape(Effect(db, DropColumn(name, column))) == Effect(Shape(db), DropColumn(name, column))
  {
    ShapeWith(db.(indexes := IndexesWithout(db, name, column)), name, Narrowed(db.tables[name], column));
    assert MapRows([], (r: Row) => r - {column}) == [];
    assert Bare(Narrowed(db.tables[name], column)) == Narrowed(Bare(db.tables[name]), column);
  }

  lemma ShapeDropTable(db: Database, name: string)
    ensures Shape(DropTableFrom(db, name)) == DropTableFrom(Shape(db), name)
  {
    assert Shape(DropTableFrom(db, name)).tables == DropTableFrom(Shape(db), name).tables;
    assert Shape(DropTableFrom(db, name)).indexes == DropTableFrom(Shape(db), name).indexes;
  }

  lemma ShapeStep(db: Database, op: Op)
    requires Drops(op)
    ensures Accepts(db, op) <==> Accepts(Shape(db), op)
    ensures Accepts(db, op) ==> Shape(Effect(db, op)) == Effect(Shape(db), op)
  {
    match op
    case DropTable(name) =>
      ShapeReferenced(db, name);
      ShapeDropTable(db, name);
    case DropColumn(name, column) =>
      if Accepts(db, op) {
        ShapeDropColumn(db, name, column);
      }
    case DropIndex(index, _) => ShapeKeyIndex(db, index);
    case DropForeignKey(constraint, name) =>
      if Accepts(db, op) {
        ShapeWith(db, name, Effect(db, op).tables[name]);
      }
    case DropCheck(constraint, name) =>
      if Accepts(db, op) {
        ShapeWith(db, name, Effect(db, op).tables[name]);
      }
  }

  /** Databases of one shape accept the same drops, and stay of one shape. */
  lemma {:induction false} SameShapeRuns(db: Database, other: Database, ops: seq<Op>)
    requires AllDrop(ops) && Shape(db) == Shape(other)
    ensures Run(db, ops).Some? <==> Run(other, ops).Some?
    ensures Run(db, ops).Some? ==> Shape(Run(db, ops).value) == Shape(Run(other, ops).value)
    decreases |ops|
  {
    if ops == [] {
    } else {
      ShapeStep(db, ops[0]);
      ShapeStep(other, ops[0]);
      if Accepts(db, ops[0]) {
        SameShapeRuns(Effect(db, ops[0]), Effect(other, ops[0]), ops[1..]);
      }
    }
  }

  lemma {:induction false} UndoDrops(ops: seq<Op>)
    requires AllCreate(ops)
    ensures AllDrop(Undo(ops)) && |Undo(ops)| == |ops|
  {
    if ops == [] {
    } else {
      UndoDrops(ops[1..]);
    }
  }

  /** However the rows have changed since a program of creating operations ran, its undo succeeds at
      every step and gives the shape from before. */
  lemma UndoAfterAnyData(before: Database, ops: seq<Op>, later: Database)
    requires Wf(before) && AllCreate(ops) && Run(before, ops).Some?
    requires Shape(later) == Shape(Run(before, ops).value)
    ensures Run(later, Undo(ops)).Some? && Shape(Run(later, Undo(ops)).value) == Shape(before)
  {
    UndoRestores(before, ops);
    UndoDrops(ops);
    SameShapeRuns(later, Run(before, ops).value, Undo(ops));
  }

  // ---------------------------------------------------------------- which rows a drop leaves alone

  /** The drop leaves every row of the table as it is. */
  predicate Spares(op: Op, name: string) {
    op.DropIndex? || op.DropForeignKey? || op.DropCheck? || (Drops(op) && op.table != name)
  }

  predicate SparedBy(ops: seq<Op>, name: string) {
    forall op | op in ops :: Spares(op, name)
  }

  lemma {:induction false} SparedRows(db: Database, ops: seq<Op>, name: string)
    requires Run(db, ops).Some? && name in db.tables && SparedBy(ops, name)
    ensures name in Run(db, ops).value.tables && Run(db, ops).value.tables[name].rows == db.tables[name].rows
    decreases |ops|
  {
    if ops == [] {
    } else {
      assert Spares(ops[0], name);
      SparedRows(Effect(db, ops[0]), ops[1..], name);
    }
  }
}
