/** On which databases the usual beginnings of an upgrade succeed: a new table with its indexes, and a
    new column that refers to a table. */
module SchemaReady {
  import opened Wrappers
  import opened Naming
  import opened Schema
  import opened SchemaLaws
  import opened Migrations

  predicate KeyedTable(db: Database, name: string) {
    name in db.tables && db.tables[name].primaryKey == "id"
  }

  // ---------------------------------------------------------------- indexes

  datatype NewIndex = NewIndex(name: string, columns: seq<string>)

  function CreateIndexes(table: string, indexes: seq<NewIndex>): seq<Op> {
    if indexes == [] then []
    else [CreateIndex(indexes[0].name, table, indexes[0].columns)] + CreateIndexes(table, indexes[1..])
  }

  function WithIndexes(db: Database, table: string, indexes: seq<NewIndex>): Database
    decreases |indexes|
  {
    if indexes == [] then db
    else
      var first := db.indexes[indexes[0].name := Index(table, indexes[0].columns)];
      WithIndexes(db.(indexes := first), table, indexes[1..])
  }

  predicate IndexFits(t: Table, index: NewIndex) {
    |index.name| <= MAX_IDENTIFIER && index.columns != [] && forall c | c in index.columns :: c in Names(t.columns)
  }

  predicate IndexesFitTable(t: Table, indexes: seq<NewIndex>) {
    (forall i | i in indexes :: IndexFits(t, i)) &&
    forall i, j | 0 <= i < j < |indexes| :: indexes[i].name != indexes[j].name
  }

  predicate FreeNames(db: Database, indexes: seq<NewIndex>) {
    forall i | i in indexes :: FreeName(db, i.name)
  }

  predicate Among(name: string, indexes: seq<NewIndex>) {
    exists i | i in indexes :: i.name == name
  }

  lemma {:induction false} NamesAfterIndexes(db: Database, table: string, indexes: seq<NewIndex>, name: string)
    ensures WithIndexes(db, table, indexes).tables == db.tables
    ensures FreeName(WithIndexes(db, table, indexes), name) <==> FreeName(db, name) && !Among(name, indexes)
    decreases |indexes|
  {
    if indexes == [] {
    } else {
      var first, rest := indexes[0], indexes[1..];
      assert indexes == [first] + rest;
      assert Among(name, indexes) <==> first.name == name || Among(name, rest);
      NamesAfterIndexes(db.(indexes := db.indexes[first.name := Index(table, first.columns)]), table, rest, name);
    }
  }

  lemma {:induction false} OtherIndexStays(db: Database, table: string, indexes: seq<NewIndex>, name: string)
    requires !Among(name, indexes)
    ensures name in WithIndexes(db, table, indexes).indexes <==> name in db.indexes
    ensures name in db.indexes ==> WithIndexes(db, table, indexes).indexes[name] == db.indexes[name]
    decreases |indexes|
  {
    if indexes == [] {
    } else {
      var first, rest := indexes[0], indexes[1..];
      assert indexes == [first] + rest && first in indexes;
      OtherIndexStays(db.(indexes := db.indexes[first.name := Index(table, first.columns)]), table, rest, name);
    }
  }

  lemma {:induction false} IndexWritten(db: Database, table: string, indexes: seq<NewIndex>, k: nat)
    requires k < |indexes| && forall i, j | 0 <= i < j < |indexes| :: indexes[i].name != indexes[j].name
    ensures var written := WithIndexes(db, table, indexes).indexes;
            indexes[k].name in written && written[indexes[k].name] == Index(table, indexes[k].columns)
    decreases |indexes|
  {
    var first, rest := indexes[0], indexes[1..];
    var db' := db.(indexes := db.indexes[first.name := Index(table, first.columns)]);
    if k == 0 {
      OtherIndexStays(db', table, rest, first.name);
    } else {
      IndexWritten(db', table, rest, k - 1);
    }
  }

  lemma FreeAfterFirst(db: Database, table: string, first: NewIndex, rest: seq<NewIndex>)
    requires forall i | i in rest :: i.name != first.name
    ensures var db' := db.(indexes := db.indexes[first.name := Index(table, first.columns)]);
            FreeNames(db', rest) <==> FreeNames(db, rest)
  {
    var db' := db.(indexes := db.indexes[first.name := Index(table, first.columns)]);
    forall i | i in rest ensures FreeName(db', i.name) <==> FreeName(db, i.name) {
    }
  }

  /** Indexes that fit their table are created exactly when their names are free. */
  lemma {:induction false} IndexesSucceedExactly(db: Database, table: string, indexes: seq<NewIndex>)
    requires table in db.tables && IndexesFitTable(db.tables[table], indexes)
    ensures Run(db, CreateIndexes(table, indexes)) ==
            if FreeNames(db, indexes) then Some(WithIndexes(db, table, indexes)) else None
    decreases |indexes|
  {
    if indexes == [] {
    } else {
      var first, rest := indexes[0], indexes[1..];
      var op := CreateIndex(first.name, table, first.columns);
      assert first in indexes && IndexFits(db.tables[table], first);
      assert indexes == [first] + rest;
      RunStep(db, op, CreateIndexes(table, rest));
      assert FreeNames(db, indexes) <==> FreeName(db, first.name) && FreeNames(db, rest);
      if FreeName(db, first.name) {
        FreeAfterFirst(db, table, first, rest);
        IndexesSucceedExactly(Effect(db, op), table, rest);
      }
    }
  }

  // ---------------------------------------------------------------- a table with its indexes

  function CreateBlock(name: string, t: Table, indexes: seq<NewIndex>): seq<Op> {
    [CreateTable(name, t)] + CreateIndexes(name, indexes)
  }

  function WithBlock(db: Database, name: string, t: Table, indexes: seq<NewIndex>): Database {
    WithIndexes(WithNewTable(db, name, t), name, indexes)
  }

  /** An empty table keyed by id, consistent in itself, that refers to the ids of other tables. */
  predicate NewTable(name: string, t: Table) {
    TableOk(t) && t.rows == [] && t.primaryKey == "id" && t.primaryKeyName != name &&
    forall k | k in t.foreignKeys :: t.foreignKeys[k].refColumn == "id" && t.foreignKeys[k].refTable != name
  }

  predicate BlockFits(name: string, t: Table, indexes: seq<NewIndex>) {
    NewTable(name, t) && IndexesFitTable(t, indexes) && !Among(name, indexes) && !Among(t.primaryKeyName, indexes)
  }

  predicate TargetsKeyed(db: Database, t: Table) {
    forall k | k in t.foreignKeys :: KeyedTable(db, t.foreignKeys[k].refTable)
  }

  /** The names are free and the tables referred to exist. */
  predicate BlockReady(db: Database, name: string, t: Table, indexes: seq<NewIndex>) {
    FreeName(db, name) && FreeName(db, t.primaryKeyName) && TargetsKeyed(db, t) && FreeNames(db, indexes)
  }

  lemma NewTableAcceptedExactly(db: Database, name: string, t: Table)
    requires NewTable(name, t)
    ensures Accepts(db, CreateTable(name, t)) <==>
            FreeName(db, name) && FreeName(db, t.primaryKeyName) && TargetsKeyed(db, t)
  {
    forall k | k in t.foreignKeys
      ensures KeyOk(db, t.foreignKeys[k], []) <==> KeyedTable(db, t.foreignKeys[k].refTable)
    {
    }
  }

  lemma FreeAfterTable(db: Database, name: string, t: Table, indexes: seq<NewIndex>)
    requires !Among(name, indexes) && !Among(t.primaryKeyName, indexes)
    ensures FreeNames(WithNewTable(db, name, t), indexes) <==> FreeNames(db, indexes)
  {
    var db' := WithNewTable(db, name, t);
    forall i | i in indexes ensures FreeName(db', i.name) <==> FreeName(db, i.name) {
    }
  }

  lemma BlockSucceedsExactly(db: Database, name: string, t: Table, indexes: seq<NewIndex>)
    requires BlockFits(name, t, indexes)
    ensures Run(db, CreateBlock(name, t, indexes)) ==
            if BlockReady(db, name, t, indexes) then Some(WithBlock(db, name, t, indexes)) else None
  {
    NewTableAcceptedExactly(db, name, t);
    RunStep(db, CreateTable(name, t), CreateIndexes(name, indexes));
    if Accepts(db, CreateTable(name, t)) {
      FreeAfterTable(db, name, t, indexes);
      IndexesSucceedExactly(WithNewTable(db, name, t), name, indexes);
    }
  }

  predicate TakenBy(name: string, table: string, t: Table, indexes: seq<NewIndex>) {
    name == table || name == t.primaryKeyName || Among(name, indexes)
  }

  /** What is free and what exists after the block was created. */
  lemma AfterBlock(db: Database, table: string, t: Table, indexes: seq<NewIndex>, name: string)
    requires t.primaryKey == "id"
    ensures var db' := WithBlock(db, table, t, indexes);
            (FreeName(db', name) <==> FreeName(db, name) && !TakenBy(name, table, t, indexes)) &&
            (KeyedTable(db', name) <==> name == table || KeyedTable(db, name)) &&
            db'.tables == db.tables[table := t]
  {
    NamesAfterIndexes(WithNewTable(db, table, t), table, indexes, name);
  }

  // ---------------------------------------------------------------- a column that refers to a table

  function AddReference(table: string, column: string, target: string, constraint: string, index: string): seq<Op> {
    [ AddColumn(table, Optional(column, "UUID")),
      CreateForeignKey(constraint, table, ForeignKey(column, target, "id", "SET NULL")),
      CreateIndex(index, table, [column]) ]
  }

  /** The table exists and can take the column, the constraint and the index. */
  predicate ReferenceReady(db: Database, table: string, column: string, constraint: string, index: string) {
    table in db.tables && column !in Names(db.tables[table].columns) && FreeConstraint(db.tables[table], constraint) &&
    FreeName(db, index) && |index| <= MAX_IDENTIFIER
  }

  /** The table with its reference, null in every row, and the foreign key on it. */
  function Referencing(t: Table, column: string, target: string, constraint: string): Table {
    var t' := Widened(t, Optional(column, "UUID"));
    t'.(foreignKeys := t'.foreignKeys[constraint := ForeignKey(column, target, "id", "SET NULL")])
  }

  lemma ReferencingMeans(t: Table, column: string, target: string, constraint: string)
    ensures var t' := Referencing(t, column, target, constraint);
            t'.columns == t.columns + [Column(column, "UUID", true, None)] &&
            t'.foreignKeys == t.foreignKeys[constraint := ForeignKey(column, target, "id", "SET NULL")] &&
            t'.checks == t.checks && t'.primaryKey == t.primaryKey &&
            |t'.rows| == |t.rows| && forall i | 0 <= i < |t.rows| :: t'.rows[i] == t.rows[i][column := Null]
  {
  }

  function WithReference(db: Database, table: string, column: string, target: string, constraint: string, index: string)
    : Database
    requires table in db.tables
  {
    var db' := WithTable(db, table, Referencing(db.tables[table], column, target, constraint));
    db'.(indexes := db'.indexes[index := Index(table, [column])])
  }

  lemma NewColumnRefers(db: Database, table: string, column: string, target: string)
    requires table in db.tables && KeyedTable(db, target) && column !in Names(db.tables[table].columns)
    ensures var db' := WithTable(db, table, Widened(db.tables[table], Optional(column, "UUID")));
            KeyOk(db', ForeignKey(column, target, "id", "SET NULL"), db'.tables[table].rows)
  {
  }

  /** The last two statements, from the database whose table is already widened. */
  lemma ConstraintsSucceedExactly(db: Database, table: string, t: Table, column: string, target: string,
                                  constraint: string, index: string)
    requires table in db.tables && db.tables[table] == t && column in Names(t.columns)
    requires KeyOk(db, ForeignKey(column, target, "id", "SET NULL"), t.rows)
    ensures var t' := t.(foreignKeys := t.foreignKeys[constraint := ForeignKey(column, target, "id", "SET NULL")]);
            var db' := WithTable(db, table, t');
            Run(db, AddReference(table, column, target, constraint, index)[1..]) ==
            if FreeConstraint(t, constraint) && FreeName(db, index) && |index| <= MAX_IDENTIFIER
            then Some(db'.(indexes := db'.indexes[index := Index(table, [column])]))
            else None
  {
    var program := AddReference(table, column, target, constraint, index);
    RunStep(db, program[1], program[2..]);
    if Accepts(db, program[1]) {
      RunStep(Effect(db, program[1]), program[2], []);
    }
  }

  lemma ReferenceSucceedsExactly(db: Database, table: string, column: string, target: string,
                                 constraint: string, index: string)
    requires KeyedTable(db, target)
    ensures Run(db, AddReference(table, column, target, constraint, index)) ==
            if ReferenceReady(db, table, column, constraint, index)
            then Some(WithReference(db, table, column, target, constraint, index))
            else None
  {
    var program, added := AddReference(table, column, target, constraint, index), Optional(column, "UUID");
    RunStep(db, program[0], program[1..]);
    if Accepts(db, program[0]) {
      var t := db.tables[table];
      var t' := Widened(t, added);
      NamesOfAppend(t.columns, added);
      NewColumnRefers(db, table, column, target);
      ConstraintsSucceedExactly(WithTable(db, table, t'), table, t', column, target, constraint, index);
      assert db.tables[table := t'][table := Referencing(t, column, target, constraint)]
          == db.tables[table := Referencing(t, column, target, constraint)];
    }
  }

  // ---------------------------------------------------------------- column names

  /** The length of a name and some of its characters, which tell the names of the new tables apart. */
  function Code(name: string): int {
    1000 * |name| + if |name| < 2 then 0 else name[0] as int + name[1] as int + name[|name| - 1] as int
  }

  lemma DistinctByCode(columns: seq<Column>, codes: seq<int>)
    requires |codes| == |columns| && forall i | 0 <= i < |codes| :: Code(columns[i].name) == codes[i]
    requires forall i, j | 0 <= i < j < |codes| :: codes[i] != codes[j]
    ensures DistinctNames(columns)
  {
    forall i, j | 0 <= i < j < |columns| ensures columns[i].name != columns[j].name {
      assert codes[i] != codes[j];
    }
  }

  lemma NamesAt(columns: seq<Column>, i: nat)
    requires i < |columns|
    ensures columns[i].name in Names(columns)
  {
    assert columns[i] in columns;
  }

  // ---------------------------------------------------------------- databases of plain tables

  function KeyOf(table: string): string {
    "pk_" + table
  }

  function PlainTable(name: string): Table {
    Table([Required("id", "UUID")], "id", KeyOf(name), map[], map[], [])
  }

  /** The tables with these names and the indexes of their keys, and nothing else. */
  function PlainDatabase(names: seq<string>): Database {
    if names == [] then Database(map[], map[])
    else WithNewTable(PlainDatabase(names[1..]), names[0], PlainTable(names[0]))
  }

  /** Not a name of a key, of an index or of anything long. */
  predicate PlainName(name: string) {
    2 <= |name| < 40 && name[0] != 'i' && name[1] != 'k'
  }

  predicate PlainNames(names: seq<string>) {
    (forall n | n in names :: PlainName(n)) && forall i, j | 0 <= i < j < |names| :: names[i] != names[j]
  }

  lemma {:induction false} PlainContents(names: seq<string>, name: string)
    ensures var db := PlainDatabase(names);
            (name in db.tables <==> name in names) && (name in names ==> db.tables[name] == PlainTable(name)) &&
            (name in db.indexes <==> exists n | n in names :: name == KeyOf(n))
  {
    if names == [] {
    } else {
      assert names == [names[0]] + names[1..];
      PlainContents(names[1..], name);
    }
  }

  lemma PlainTableOk(name: string)
    ensures TableOk(PlainTable(name)) && Names(PlainTable(name).columns) == {"id"}
  {
    assert PlainTable(name).columns[0] in PlainTable(name).columns;
  }

  lemma KeysDiffer(s: string, t: string)
    ensures KeyOf(s) == KeyOf(t) <==> s == t
  {
    assert s == KeyOf(s)[3..] && t == KeyOf(t)[3..];
  }

  /** A plain name and its key are free as long as the table does not exist. */
  lemma PlainFree(names: seq<string>, name: string)
    requires PlainNames(names) && PlainName(name) && name !in names
    ensures FreeName(PlainDatabase(names), name) && FreeName(PlainDatabase(names), KeyOf(name))
  {
    PlainContents(names, name);
    PlainContents(names, KeyOf(name));
    forall n | n in names ensures KeyOf(name) != KeyOf(n) && name != KeyOf(n) && KeyOf(name) != n {
      KeysDiffer(name, n);
      assert KeyOf(n)[1] == 'k' && KeyOf(name)[1] == 'k' && PlainName(n);
    }
  }

  /** So is every name that is no plain name and no key. */
  lemma OtherFree(names: seq<string>, name: string)
    requires PlainNames(names) && !PlainName(name) && (|name| > 43 || (name != "" && name[0] == 'i'))
    ensures FreeName(PlainDatabase(names), name)
  {
    PlainContents(names, name);
    forall n | n in names ensures name != KeyOf(n) {
      assert PlainName(n) && KeyOf(n)[0] == 'p';
    }
  }

  lemma {:induction false} PlainDatabaseWf(names: seq<string>)
    requires PlainNames(names)
    ensures Wf(PlainDatabase(names))
  {
    if names == [] {
    } else {
      var rest := names[1..];
      forall n | n in rest ensures PlainName(n) {
        assert n in names;
      }
      PlainDatabaseWf(rest);
      PlainTableOk(names[0]);
      PlainFree(rest, names[0]);
      KeepsWf(PlainDatabase(rest), CreateTable(names[0], PlainTable(names[0])));
    }
  }

  /** A plain table can take a reference. */
  lemma PlainTakesReference(names: seq<string>, table: string, column: string, constraint: string, index: string)
    requires PlainNames(names) && table in names && column != "id"
    requires 0 < |constraint| <= MAX_IDENTIFIER && constraint[0] == 'f'
    requires 0 < |index| <= MAX_IDENTIFIER && index[0] == 'i'
    ensures ReferenceReady(PlainDatabase(names), table, column, constraint, index)
  {
    PlainContents(names, table);
    PlainTableOk(table);
    OtherFree(names, index);
    assert KeyOf(table)[0] == 'p';
  }
}
