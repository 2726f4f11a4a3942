/** What the checks of a table say about one row. */
module RowChecks {
  import opened Schema

  /** Checks that are listed under distinct names hold together exactly when each one does. */
  lemma ListedChecks(checks: map<string, Check>, names: seq<string>, list: seq<Check>, row: Row)
    requires |names| == |list| && forall c | c in checks :: c in names
    requires forall i | 0 <= i < |names| :: names[i] in checks && checks[names[i]] == list[i]
    ensures (forall c | c in checks :: Holds(checks[c], row)) <==> forall i | 0 <= i < |list| :: Holds(list[i], row)
  {
    if forall c | c in checks :: Holds(checks[c], row) {
      forall i | 0 <= i < |list| ensures Holds(list[i], row) {
        assert Holds(checks[names[i]], row);
      }
    }
  }

  lemma ThreeChecks(names: seq<string>, list: seq<Check>, row: Row)
    requires |names| == |list| == 3 && forall i, j | 0 <= i < j < |names| :: names[i] != names[j]
    ensures var checks := map[names[0] := list[0], names[1] := list[1], names[2] := list[2]];
            (forall c | c in checks :: Holds(checks[c], row)) <==>
            Holds(list[0], row) && Holds(list[1], row) && Holds(list[2], row)
  {
    var checks := map[names[0] := list[0], names[1] := list[1], names[2] := list[2]];
    ListedChecks(checks, names, list, row);
  }

  lemma TwoChecks(names: seq<string>, list: seq<Check>, row: Row)
    requires |names| == |list| == 2 && names[0] != names[1]
    ensures var checks := map[names[0] := list[0], names[1] := list[1]];
            (forall c | c in checks :: Holds(checks[c], row)) <==> Holds(list[0], row) && Holds(list[1], row)
  {
    var checks := map[names[0] := list[0], names[1] := list[1]];
    ListedChecks(checks, names, list, row);
  }
}
