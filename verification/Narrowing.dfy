/** Widening the values a check allows, and narrowing them again after rewriting the rows. */
module Narrowing {
  import opened Wrappers
  import opened Schema
  import opened SchemaLaws
  import opened SchemaUndo
  import opened SchemaShape

  function Replace(name: string, constraint: string, column: string, allowed: set<string>): seq<Op> {
    [DropCheck(constraint, name), CreateCheck(constraint, name, OneOf(column, allowed))]
  }

  function RewriteAndReplace(name: string, constraint: string, column: string, allowed: set<string>,
                             from: string, to: string): seq<Op>
  {
    [Update(name, column, from, to)] + Replace(name, constraint, column, allowed)
  }

  /** The table allows these values in the column, by this check, and nothing else constrains it. */
  predicate Allows(t: Table, constraint: string, column: string, allowed: set<string>) {
    constraint in t.checks && t.checks[constraint] == OneOf(column, allowed) && t.primaryKey != column &&
    (forall c | c in t.checks && c != constraint :: t.checks[c].column != column) &&
    (forall k | k in t.foreignKeys :: t.foreignKeys[k].column != column)
  }

  predicate ValueWithin(row: Row, column: string, allowed: set<string>) {
    column in row && (row[column] == Null || (row[column].Text? && row[column].text in allowed))
  }

  predicate Within(rows: seq<Row>, column: string, allowed: set<string>) {
    forall r | r in rows :: ValueWithin(r, column, allowed)
  }

  function WithAllowed(t: Table, constraint: string, column: string, allowed: set<string>): Table {
    t.(checks := t.checks[constraint := OneOf(column, allowed)])
  }

  lemma RunOne(db: Database, op: Op)
    ensures Run(db, [op]) == Apply(db, op)
  {
  }

  lemma ReplaceRuns(db: Database, name: string, constraint: string, column: string, allowed: set<string>)
    requires name in db.tables && constraint in db.tables[name].checks && ConstraintNamesOk(db.tables[name])
    requires column in Names(db.tables[name].columns)
    ensures Run(db, Replace(name, constraint, column, allowed)) ==
            if AllHold(OneOf(column, allowed), db.tables[name].rows)
            then Some(WithTable(db, name, WithAllowed(db.tables[name], constraint, column, allowed)))
            else None
  {
    var t, check := db.tables[name], OneOf(column, allowed);
    var dropped := t.(checks := t.checks - {constraint});
    var db' := WithTable(db, name, dropped);
    RunAppend(db, [DropCheck(constraint, name)], [CreateCheck(constraint, name, check)]);
    RunOne(db, DropCheck(constraint, name));
    RunOne(db', CreateCheck(constraint, name, check));
    assert dropped.checks[constraint := check] == t.checks[constraint := check];
    assert db.tables[name := dropped][name := WithAllowed(t, constraint, column, allowed)]
        == db.tables[name := WithAllowed(t, constraint, column, allowed)];
  }

  lemma WithinHolds(rows: seq<Row>, column: string, allowed: set<string>, earlier: set<string>)
    requires AllHold(OneOf(column, earlier), rows)
    ensures AllHold(OneOf(column, allowed), rows) <==> Within(rows, column, allowed)
    ensures Within(rows, column, earlier)
  {
    forall r | r in rows
      ensures (Holds(OneOf(column, allowed), r) <==> ValueWithin(r, column, allowed)) && ValueWithin(r, column, earlier)
    {
      assert Holds(OneOf(column, earlier), r);
    }
  }

  lemma CheckFacts(db: Database, name: string, constraint: string)
    requires Wf(db) && name in db.tables && constraint in db.tables[name].checks
    ensures var t := db.tables[name];
            ConstraintNamesOk(t) && t.checks[constraint].column in Names(t.columns) &&
            AllHold(t.checks[constraint], t.rows)
  {
    assert TableOk(db.tables[name]);
  }

  /** Replacing the check succeeds exactly when no row holds a value outside the new set. */
  lemma ReplaceSucceedsExactly(db: Database, name: string, constraint: string, column: string,
                               earlier: set<string>, allowed: set<string>)
    requires Wf(db) && name in db.tables && Allows(db.tables[name], constraint, column, earlier)
    ensures Run(db, Replace(name, constraint, column, allowed)) ==
            if Within(db.tables[name].rows, column, allowed)
            then Some(WithTable(db, name, WithAllowed(db.tables[name], constraint, column, allowed)))
            else None
  {
    CheckFacts(db, name, constraint);
    ReplaceRuns(db, name, constraint, column, allowed);
    WithinHolds(db.tables[name].rows, column, allowed, earlier);
  }

  lemma RewrittenWithin(t: Table, constraint: string, column: string, wide: set<string>, narrow: set<string>,
                        from: string, to: string)
    requires constraint in t.checks && t.checks[constraint] == OneOf(column, wide)
    requires AllHold(t.checks[constraint], t.rows)
    requires wide <= narrow + {from} && to in narrow
    ensures Within(Updated(t, column, from, to).rows, column, narrow)
  {
    var t' := Updated(t, column, from, to);
    forall r: Row | r in t'.rows ensures ValueWithin(r, column, narrow) {
      var i :| 0 <= i < |t'.rows| && t'.rows[i] == r;
      assert t.rows[i] in t.rows && Holds(t.checks[constraint], t.rows[i]);
    }
  }

  lemma WithinIsHeld(rows: seq<Row>, column: string, narrow: set<string>, wide: set<string>)
    requires Within(rows, column, narrow) && narrow <= wide
    ensures AllHold(OneOf(column, wide), rows)
  {
    forall r | r in rows ensures Holds(OneOf(column, wide), r) {
      assert ValueWithin(r, column, narrow);
    }
  }

  lemma RewrittenRows(t: Table, constraint: string, column: string, wide: set<string>, narrow: set<string>,
                      from: string, to: string)
    requires TableOk(t) && Allows(t, constraint, column, wide)
    requires wide <= narrow + {from} && to in narrow && narrow <= wide
    ensures TableOk(Updated(t, column, from, to)) && SameTarget(t, Updated(t, column, from, to))
    ensures Within(Updated(t, column, from, to).rows, column, narrow)
  {
    assert AllHold(t.checks[constraint], t.rows);
    RewrittenWithin(t, constraint, column, wide, narrow, from, to);
    RewrittenChecks(t, constraint, column, wide, narrow, from, to);
    RewrittenTarget(t, column, from, to);
    UpdatedOk(t, column, from, to);
  }

  lemma RewrittenChecks(t: Table, constraint: string, column: string, wide: set<string>, narrow: set<string>,
                        from: string, to: string)
    requires ChecksHold(t) && constraint in t.checks && t.checks[constraint] == OneOf(column, wide)
    requires forall c | c in t.checks && c != constraint :: t.checks[c].column != column
    requires Within(Updated(t, column, from, to).rows, column, narrow) && narrow <= wide
    ensures ChecksHold(Updated(t, column, from, to))
  {
    var t', f := Updated(t, column, from, to), (r: Row) => Rewritten(r, column, from, to);
    forall c | c in t'.checks ensures AllHold(t'.checks[c], t'.rows) {
      if c == constraint {
        WithinIsHeld(t'.rows, column, narrow, wide);
      } else {
        HoldsMapped(t.checks[c], t.rows, f);
      }
    }
  }

  lemma RewrittenTarget(t: Table, column: string, from: string, to: string)
    requires TableOk(t) && t.primaryKey != column
    ensures SameTarget(t, Updated(t, column, from, to))
  {
    KeyValuesMapped(t, Updated(t, column, from, to), (r: Row) => Rewritten(r, column, from, to));
  }

  lemma KeysAfterRewrite(db: Database, name: string, column: string, from: string, to: string)
    requires AllKeysOk(db) && name in db.tables
    requires SameTarget(db.tables[name], Updated(db.tables[name], column, from, to))
    requires forall k | k in db.tables[name].foreignKeys :: db.tables[name].foreignKeys[k].column != column
    ensures AllKeysOk(WithTable(db, name, Updated(db.tables[name], column, from, to)))
  {
    var t := db.tables[name];
    var t', f := Updated(t, column, from, to), (r: Row) => Rewritten(r, column, from, to);
    forall k | k in t'.foreignKeys ensures KeyOk(db, t'.foreignKeys[k], t'.rows) {
      assert KeysOk(db, name);
      RefersMapped(t.foreignKeys[k], t.rows, f, KeyValues(db.tables[t.foreignKeys[k].refTable]));
    }
    ReplaceKeys(db, name, t');
  }

  lemma UpdateAccepted(db: Database, name: string, constraint: string, column: string,
                       wide: set<string>, narrow: set<string>, from: string, to: string)
    requires Wf(db) && name in db.tables && Allows(db.tables[name], constraint, column, wide)
    requires wide <= narrow + {from} && to in narrow && narrow <= wide
    ensures Accepts(db, Update(name, column, from, to))
  {
    CheckFacts(db, name, constraint);
    OwnKeys(db, name);
    RewrittenRows(db.tables[name], constraint, column, wide, narrow, from, to);
    KeysAfterRewrite(db, name, column, from, to);
  }

  lemma NarrowRewritten(db: Database, name: string, t: Table, constraint: string, column: string, allowed: set<string>)
    requires name in db.tables && constraint in t.checks && ConstraintNamesOk(t) && column in Names(t.columns)
    requires AllHold(OneOf(column, allowed), t.rows)
    ensures Run(WithTable(db, name, t), Replace(name, constraint, column, allowed)) ==
            Some(WithTable(db, name, WithAllowed(t, constraint, column, allowed)))
  {
    ReplaceRuns(WithTable(db, name, t), name, constraint, column, allowed);
    assert db.tables[name := t][name := WithAllowed(t, constraint, column, allowed)]
        == db.tables[name := WithAllowed(t, constraint, column, allowed)];
  }

  /** After the rows are rewritten the narrow check is always accepted: whatever rows the wide one
      let in, every statement succeeds, and the table ends with the rewritten rows and exactly the
      narrow check. */
  lemma SafeNarrowing(db: Database, name: string, constraint: string, column: string,
                      wide: set<string>, narrow: set<string>, from: string, to: string)
    requires Wf(db) && name in db.tables && Allows(db.tables[name], constraint, column, wide)
    requires wide <= narrow + {from} && to in narrow && narrow <= wide
    ensures Run(db, RewriteAndReplace(name, constraint, column, narrow, from, to)) ==
            Some(WithTable(db, name,
                           WithAllowed(Updated(db.tables[name], column, from, to), constraint, column, narrow)))
  {
    var t' := Updated(db.tables[name], column, from, to);
    UpdateAccepted(db, name, constraint, column, wide, narrow, from, to);
    RunAppend(db, [Update(name, column, from, to)], Replace(name, constraint, column, narrow));
    RunOne(db, Update(name, column, from, to));
    CheckFacts(db, name, constraint);
    OwnKeys(db, name);
    RewrittenRows(db.tables[name], constraint, column, wide, narrow, from, to);
    assert AllHold(t'.checks[constraint], t'.rows);
    WithinHolds(t'.rows, column, narrow, wide);
    NarrowRewritten(db, name, t', constraint, column, narrow);
  }

  /** The rewriting leaves every row alone that holds no removed value, whatever the others hold. */
  lemma RewriteKeepsNarrowRows(t: Table, column: string, narrow: set<string>, from: string, to: string)
    requires from !in narrow
    ensures |Updated(t, column, from, to).rows| == |t.rows|
    ensures forall i | 0 <= i < |t.rows| && ValueWithin(t.rows[i], column, narrow) ::
              Updated(t, column, from, to).rows[i] == t.rows[i]
    ensures Within(t.rows, column, narrow) ==> Updated(t, column, from, to) == t
  {
    if Within(t.rows, column, narrow) {
      forall i | 0 <= i < |t.rows| ensures Rewritten(t.rows[i], column, from, to) == t.rows[i] {
        assert t.rows[i] in t.rows;
      }
      assert Updated(t, column, from, to).rows == t.rows;
    }
  }

  /** Widening a check never fails and changes only the check. */
  lemma Widening(db: Database, name: string, constraint: string, column: string, narrow: set<string>, wide: set<string>)
    requires Wf(db) && name in db.tables && Allows(db.tables[name], constraint, column, narrow) && narrow <= wide
    ensures Run(db, Replace(name, constraint, column, wide)) ==
            Some(WithTable(db, name, WithAllowed(db.tables[name], constraint, column, wide)))
  {
    ReplaceSucceedsExactly(db, name, constraint, column, narrow, wide);
    RowsWithin(db, name, constraint, column, narrow);
  }

  lemma RowsWithin(db: Database, name: string, constraint: string, column: string, allowed: set<string>)
    requires Wf(db) && name in db.tables && Allows(db.tables[name], constraint, column, allowed)
    ensures Within(db.tables[name].rows, column, allowed)
  {
    CheckFacts(db, name, constraint);
    WithinHolds(db.tables[name].rows, column, allowed, allowed);
  }

  // ---------------------------------------------------------------- narrowing after any data

  lemma AllowsSameShape(t: Table, t': Table, constraint: string, column: string, allowed: set<string>)
    requires Bare(t) == Bare(t')
    ensures Allows(t, constraint, column, allowed) <==> Allows(t', constraint, column, allowed)
  {
    assert t.checks == Bare(t').checks && t.foreignKeys == Bare(t').foreignKeys && t.primaryKey == Bare(t').primaryKey;
    assert t'.checks == Bare(t').checks && t'.foreignKeys == Bare(t').foreignKeys;
    assert t'.primaryKey == Bare(t').primaryKey;
  }

  /** The database with one table rewritten and its check narrowed, all other tables as they are. */
  function NarrowedIn(db: Database, name: string, constraint: string, column: string, narrow: set<string>,
                      from: string, to: string): Database
    requires name in db.tables
  {
    WithTable(db, name, WithAllowed(Updated(db.tables[name], column, from, to), constraint, column, narrow))
  }

  /** Whatever rows a database of the widened shape has come to hold, narrowing it succeeds, restores
      the shape from before and rewrites only the removed value. */
  lemma NarrowingUndoesWidening(before: Database, later: Database, name: string, constraint: string, column: string,
                                narrow: set<string>, from: string, to: string)
    requires Wf(later) && name in before.tables && Allows(before.tables[name], constraint, column, narrow)
    requires Shape(later) ==
             Shape(WithTable(before, name, WithAllowed(before.tables[name], constraint, column, narrow + {from})))
    requires to in narrow
    ensures name in later.tables
    ensures var end := NarrowedIn(later, name, constraint, column, narrow, from, to);
            Run(later, RewriteAndReplace(name, constraint, column, narrow, from, to)) == Some(end) &&
            Shape(end) == Shape(before)
  {
    NarrowedShape(before, later, name, constraint, column, narrow, from, to);
    SafeNarrowing(later, name, constraint, column, narrow + {from}, narrow, from, to);
  }

  lemma NarrowedShape(before: Database, later: Database, name: string, constraint: string, column: string,
                      narrow: set<string>, from: string, to: string)
    requires name in before.tables && Allows(before.tables[name], constraint, column, narrow)
    requires Shape(later) ==
             Shape(WithTable(before, name, WithAllowed(before.tables[name], constraint, column, narrow + {from})))
    ensures name in later.tables && Allows(later.tables[name], constraint, column, narrow + {from})
    ensures Shape(NarrowedIn(later, name, constraint, column, narrow, from, to)) == Shape(before)
  {
    var widened := WithAllowed(before.tables[name], constraint, column, narrow + {from});
    ShapeOfOne(before, later, name, widened);
    var t := later.tables[name];
    AllowsSameShape(widened, t, constraint, column, narrow + {from});
    NarrowedBack(before.tables[name], t, constraint, column, narrow, from, to);
    ShapePutBack(before, later, name, widened, WithAllowed(Updated(t, column, from, to), constraint, column, narrow));
  }

  lemma ShapeOfOne(before: Database, later: Database, name: string, t: Table)
    requires Shape(later) == Shape(WithTable(before, name, t))
    ensures name in later.tables && Bare(later.tables[name]) == Bare(t)
  {
    assert name in Shape(WithTable(before, name, t)).tables;
    assert name in Shape(later).tables;
    assert Shape(later).tables[name] == Bare(later.tables[name]);
    assert Shape(WithTable(before, name, t)).tables[name] == Bare(t);
  }

  lemma ShapePutBack(before: Database, later: Database, name: string, t: Table, t': Table)
    requires name in before.tables && Shape(later) == Shape(WithTable(before, name, t))
    requires Bare(t') == Bare(before.tables[name])
    ensures Shape(WithTable(later, name, t')) == Shape(before)
  {
    ShapeWith(later, name, t');
    ShapeWith(before, name, t);
    assert Shape(later) == WithTable(Shape(before), name, Bare(t));
    assert Shape(before).tables[name := Bare(t)][name := Bare(t')] == Shape(before).tables;
  }

  lemma NarrowedBack(t: Table, later: Table, constraint: string, column: string, narrow: set<string>,
                     from: string, to: string)
    requires Allows(t, constraint, column, narrow)
    requires Bare(later) == Bare(WithAllowed(t, constraint, column, narrow + {from}))
    ensures Bare(WithAllowed(Updated(later, column, from, to), constraint, column, narrow)) == Bare(t)
  {
    var wide := Bare(later);
    assert later.checks == wide.checks == t.checks[constraint := OneOf(column, narrow + {from})];
    assert later.checks[constraint := OneOf(column, narrow)] == t.checks;
    assert later.columns == wide.columns == t.columns;
    assert later.primaryKey == wide.primaryKey && later.foreignKeys == wide.foreignKeys;
  }

  // ---------------------------------------------------------------- migrations that widen, then create

  lemma {:induction false} CreatesOnlyAdd(db: Database, ops: seq<Op>)
    requires AllCreate(ops) && Run(db, ops).Some?
    ensures db.tables.Keys <= Run(db, ops).value.tables.Keys
    decreases |ops|
  {
    if ops == [] {
    } else {
      assert Creates(ops[0]);
      CreatesOnlyAdd(Effect(db, ops[0]), ops[1..]);
    }
  }

  lemma ShapeHasTables(db: Database, other: Database)
    requires Shape(db) == Shape(other)
    ensures db.tables.Keys == other.tables.Keys
  {
    assert Shape(db).tables.Keys == db.tables.Keys && Shape(other).tables.Keys == other.tables.Keys;
  }

  function WidenedIn(db: Database, name: string, constraint: string, column: string, allowed: set<string>): Database
    requires name in db.tables
  {
    WithTable(db, name, WithAllowed(db.tables[name], constraint, column, allowed))
  }

  /** The first half of the downgrade, on any rows: the created objects go, the narrowed table keeps
      its rows. */
  lemma DropsAfterAnyData(before: Database, creates: seq<Op>, later: Database, name: string) returns (mid: Database)
    requires Wf(before) && AllCreate(creates) && Run(before, creates).Some? && name in before.tables
    requires Wf(later) && Shape(later) == Shape(Run(before, creates).value)
    requires SparedBy(Undo(creates), name)
    ensures Run(later, Undo(creates)) == Some(mid) && Wf(mid) && Shape(mid) == Shape(before)
    ensures name in later.tables && name in mid.tables && mid.tables[name].rows == later.tables[name].rows
    ensures forall other | other in later.tables && SparedBy(Undo(creates), other) ::
              other in mid.tables && mid.tables[other].rows == later.tables[other].rows
    ensures later == Run(before, creates).value ==> mid == before
  {
    UndoAfterAnyData(before, creates, later);
    UndoRestores(before, creates);
    mid := Run(later, Undo(creates)).value;
    RunKeepsWf(later, Undo(creates));
    CreatesOnlyAdd(before, creates);
    ShapeHasTables(later, Run(before, creates).value);
    AllSparedRows(later, Undo(creates));
  }

  lemma AllSparedRows(db: Database, ops: seq<Op>)
    requires Run(db, ops).Some?
    ensures forall other | other in db.tables && SparedBy(ops, other) ::
              other in Run(db, ops).value.tables && Run(db, ops).value.tables[other].rows == db.tables[other].rows
  {
    forall other | other in db.tables && SparedBy(ops, other)
      ensures other in Run(db, ops).value.tables && Run(db, ops).value.tables[other].rows == db.tables[other].rows
    {
      SparedRows(db, ops, other);
    }
  }

  lemma WidenFirst(before: Database, name: string, constraint: string, column: string,
                   narrow: set<string>, wide: set<string>, creates: seq<Op>)
    requires Wf(before) && name in before.tables && Allows(before.tables[name], constraint, column, narrow)
    requires narrow <= wide
    ensures Wf(WidenedIn(before, name, constraint, column, wide))
    ensures Run(before, Replace(name, constraint, column, wide) + creates) ==
            Run(WidenedIn(before, name, constraint, column, wide), creates)
  {
    Widening(before, name, constraint, column, narrow, wide);
    RunKeepsWf(before, Replace(name, constraint, column, wide));
    RunAppend(before, Replace(name, constraint, column, wide), creates);
  }

  lemma NarrowedWidened(t: Table, constraint: string, column: string, narrow: set<string>, wide: set<string>)
    requires Allows(t, constraint, column, narrow)
    ensures WithAllowed(WithAllowed(t, constraint, column, wide), constraint, column, narrow) == t
  {
    assert t.checks[constraint := OneOf(column, wide)][constraint := OneOf(column, narrow)] == t.checks;
  }

  /** With no rows added, narrowing the widened check gives the database from before. */
  lemma NarrowingUnchanged(before: Database, name: string, constraint: string, column: string,
                           narrow: set<string>, from: string, to: string)
    requires Wf(before) && name in before.tables && Allows(before.tables[name], constraint, column, narrow)
    requires from !in narrow
    ensures var widened := WidenedIn(before, name, constraint, column, narrow + {from});
            NarrowedIn(widened, name, constraint, column, narrow, from, to) == before
  {
    var t := before.tables[name];
    var widened := WithAllowed(t, constraint, column, narrow + {from});
    RowsWithin(before, name, constraint, column, narrow);
    RewriteKeepsNarrowRows(widened, column, narrow, from, to);
    NarrowedWidened(t, constraint, column, narrow, narrow + {from});
    PutBack(before, name, widened);
  }

  lemma NarrowedInRows(mid: Database, later: Database, name: string, constraint: string, column: string,
                       narrow: set<string>, from: string, to: string, drops: seq<Op>)
    requires name in mid.tables && name in later.tables && mid.tables[name].rows == later.tables[name].rows
    requires forall other | other in later.tables && SparedBy(drops, other) ::
               other in mid.tables && mid.tables[other].rows == later.tables[other].rows
    ensures var end := NarrowedIn(mid, name, constraint, column, narrow, from, to);
            name in end.tables && end.tables[name].rows == Updated(later.tables[name], column, from, to).rows &&
            forall other | other in later.tables && other != name && SparedBy(drops, other) ::
              other in end.tables && end.tables[other].rows == later.tables[other].rows
  {
    var t, t' := mid.tables[name], later.tables[name];
    assert Updated(t, column, from, to).rows == Updated(t', column, from, to).rows;
  }

  /** The downgrade, on any rows of the shape that the creating half left. */
  lemma NarrowsAfterAnyData(before: Database, widened: Database, later: Database, name: string, constraint: string,
                            column: string, narrow: set<string>, from: string, to: string, creates: seq<Op>)
    returns (mid: Database)
    requires name in before.tables && Allows(before.tables[name], constraint, column, narrow)
    requires widened == WidenedIn(before, name, constraint, column, narrow + {from}) && Wf(widened)
    requires to in narrow && AllCreate(creates) && SparedBy(Undo(creates), name)
    requires Run(widened, creates).Some?
    requires Wf(later) && Shape(later) == Shape(Run(widened, creates).value)
    ensures name in mid.tables && name in later.tables && mid.tables[name].rows == later.tables[name].rows
    ensures forall other | other in later.tables && SparedBy(Undo(creates), other) ::
              other in mid.tables && mid.tables[other].rows == later.tables[other].rows
    ensures later == Run(widened, creates).value ==> mid == widened
    ensures var end := NarrowedIn(mid, name, constraint, column, narrow, from, to);
            Run(later, Undo(creates) + RewriteAndReplace(name, constraint, column, narrow, from, to)) == Some(end) &&
            Shape(end) == Shape(before)
  {
    mid := DropsAfterAnyData(widened, creates, later, name);
    NarrowingUndoesWidening(before, mid, name, constraint, column, narrow, from, to);
    RunAppend(later, Undo(creates), RewriteAndReplace(name, constraint, column, narrow, from, to));
  }

  /** What a downgrade from `later` to `end` gives back, where `after` is what the upgrade of `before`
      left: the shape from before; the rows of the narrowed table but for the removed value; the rows of
      every table the drops spare; and the database itself when no row had changed. */
  ghost predicate TakenBack(before: Database, after: Database, later: Database, end: Database, name: string,
                            column: string, from: string, to: string, drops: seq<Op>)
  {
    && Shape(end) == Shape(before)
    && name in later.tables && name in end.tables
    && end.tables[name].rows == Updated(later.tables[name], column, from, to).rows
    && (forall other | other in later.tables && other != name && SparedBy(drops, other) ::
          other in end.tables && end.tables[other].rows == later.tables[other].rows)
    && (later == after ==> end == before)
  }

  lemma WidenedTakenBack(before: Database, widened: Database, later: Database, name: string, constraint: string,
                         column: string, narrow: set<string>, from: string, to: string, creates: seq<Op>)
    returns (end: Database)
    requires Wf(before) && name in before.tables && Allows(before.tables[name], constraint, column, narrow)
    requires widened == WidenedIn(before, name, constraint, column, narrow + {from}) && Wf(widened)
    requires to in narrow && from !in narrow && AllCreate(creates) && SparedBy(Undo(creates), name)
    requires Run(widened, creates).Some?
    requires Wf(later) && Shape(later) == Shape(Run(widened, creates).value)
    ensures Run(later, Undo(creates) + RewriteAndReplace(name, constraint, column, narrow, from, to)) == Some(end)
    ensures TakenBack(before, Run(widened, creates).value, later, end, name, column, from, to, Undo(creates))
  {
    var mid := NarrowsAfterAnyData(before, widened, later, name, constraint, column, narrow, from, to, creates);
    end := NarrowedIn(mid, name, constraint, column, narrow, from, to);
    NarrowedInRows(mid, later, name, constraint, column, narrow, from, to, Undo(creates));
    NarrowingUnchanged(before, name, constraint, column, narrow, from, to);
  }

  /** A migration that widens a check and then creates tables, columns, keys and indexes is taken back
      by dropping them, rewriting the rows and narrowing the check. Whatever rows came to be stored in
      between, as long as they satisfy the constraints, every statement succeeds. */
  lemma WidenCreateRoundTrip(before: Database, later: Database, name: string, constraint: string, column: string,
                             narrow: set<string>, from: string, to: string, creates: seq<Op>)
    returns (end: Database)
    requires Wf(before) && name in before.tables && Allows(before.tables[name], constraint, column, narrow)
    requires to in narrow && from !in narrow && AllCreate(creates) && SparedBy(Undo(creates), name)
    requires Run(before, Replace(name, constraint, column, narrow + {from}) + creates).Some?
    requires Wf(later)
    requires Shape(later) == Shape(Run(before, Replace(name, constraint, column, narrow + {from}) + creates).value)
    ensures Run(later, Undo(creates) + RewriteAndReplace(name, constraint, column, narrow, from, to)) == Some(end)
    ensures var after := Run(before, Replace(name, constraint, column, narrow + {from}) + creates).value;
            TakenBack(before, after, later, end, name, column, from, to, Undo(creates))
  {
    var widened := WidenedIn(before, name, constraint, column, narrow + {from});
    WidenFirst(before, name, constraint, column, narrow, narrow + {from}, creates);
    end := WidenedTakenBack(before, widened, later, name, constraint, column, narrow, from, to, creates);
  }
}
