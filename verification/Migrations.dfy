/** Running the statements of a migration against one database. */
module Migrations {
  import opened Wrappers
  import opened Schema

  /** The `op` object of a migration. Each statement is issued at once; one that fails raises and
      changes nothing. */
  class Operations {
    var database: Database

    constructor (database: Database)
      ensures this.database == database
    {
      this.database := database;
    }

    method Execute(op: Op) returns (r: Outcome)
      modifies this
      ensures r.Pass? <==> Accepts(old(database), op)
      ensures database == if r.Pass? then Effect(old(database), op) else old(database)
    {
      if !Accepts(database, op) {
        return Fail;
      }
      database := Effect(database, op);
      return Pass;
    }

    /** The statements of the program were issued in order: all of them, or up to one that failed. */
    ghost predicate Followed(before: Database, program: seq<Op>, r: Outcome)
      reads this
    {
      Run(before, program) == if r.Pass? then Some(database) else None
    }
  }

  /** A program step by step, as a method issues it. */
  lemma RunStep(db: Database, op: Op, rest: seq<Op>)
    ensures Run(db, [op] + rest) == if Accepts(db, op) then Run(Effect(db, op), rest) else None
  {
    assert ([op] + rest)[1..] == rest;
  }

  // ---------------------------------------------------------------- column declarations

  function Required(name: string, sqlType: string): Column {
    Column(name, sqlType, false, None)
  }

  function Optional(name: string, sqlType: string): Column {
    Column(name, sqlType, true, None)
  }

  function Defaulted(name: string, sqlType: string, value: Value): Column {
    Column(name, sqlType, false, Some(value))
  }
}
