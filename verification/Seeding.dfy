/** The seeding of the strategy profiles: inserts that skip a key and version already present. */
module Seeding {
  import opened Wrappers

  /** A profile as listed in the migration; `details` holds the other bound parameters. */
  datatype Profile = Profile(key: string, version: string, details: map<string, string>)

  datatype Row = Row(id: string, profile: Profile, isActive: bool)

  predicate SameKey(a: Profile, b: Profile) {
    a.key == b.key && a.version == b.version
  }

  predicate HasProfile(rows: seq<Row>, profile: Profile) {
    exists row | row in rows :: SameKey(row.profile, profile)
  }

  predicate HasId(rows: seq<Row>, id: string) {
    exists row | row in rows :: row.id == id
  }

  predicate UniqueKeys(rows: seq<Row>) {
    forall i, j | 0 <= i < j < |rows| :: !SameKey(rows[i].profile, rows[j].profile)
  }

  predicate UniqueIds(rows: seq<Row>) {
    forall i, j | 0 <= i < j < |rows| :: rows[i].id != rows[j].id
  }

  // ---------------------------------------------------------------- the statements

  /** `insert ... on conflict (key, version) do nothing`: a duplicate id alone is still an error. */
  function Inserted(rows: seq<Row>, row: Row): Option<seq<Row>> {
    if HasProfile(rows, row.profile) then Some(rows)
    else if HasId(rows, row.id) then None
    else Some(rows + [row])
  }

  function SeedRow(profile: Profile, id: string): Row {
    Row(id, profile, true)
  }

  /** The table after seeding; `None` when an insert raises. */
  function Seeded(rows: seq<Row>, profiles: seq<Profile>, ids: seq<string>): Option<seq<Row>>
    requires |profiles| == |ids|
  {
    if profiles == [] then Some(rows)
    else
      var n := |profiles| - 1;
      match Seeded(rows, profiles[..n], ids[..n])
      case None => None
      case Some(before) => Inserted(before, SeedRow(profiles[n], ids[n]))
  }

  /** The inserts before the one for profile `i` were made, and that one raises. */
  ghost predicate StoppedAt(rows: seq<Row>, profiles: seq<Profile>, ids: seq<string>, i: nat, after: seq<Row>)
    requires |profiles| == |ids|
  {
    && i < |profiles|
    && Seeded(rows, profiles[..i], ids[..i]) == Some(after)
    && Inserted(after, SeedRow(profiles[i], ids[i])) == None
  }

  class StrategyProfiles {
    var rows: seq<Row>

    ghost predicate Valid()
      reads this
    {
      UniqueKeys(rows) && UniqueIds(rows)
    }

    constructor ()
      ensures Valid() && rows == []
    {
      rows := [];
    }

    method Insert(row: Row) returns (outcome: Outcome)
      requires Valid()
      modifies this
      ensures Valid()
      ensures outcome.Pass? <==> Inserted(old(rows), row).Some?
      ensures rows == match Inserted(old(rows), row) case Some(after) => after case None => old(rows)
    {
      if HasProfile(rows, row.profile) {
        return Pass;
      }
      if HasId(rows, row.id) {
        return Fail;
      }
      assert forall i | 0 <= i < |rows| :: rows[i] in rows;
      rows := rows + [row];
      return Pass;
    }

    /** `ids` are the fresh identifiers that the calls of `uuid4` return. */
    method SeedStrategyProfiles(profiles: seq<Profile>, ids: seq<string>) returns (outcome: Outcome)
      requires Valid() && |profiles| == |ids|
      modifies this
      ensures Valid()
      ensures outcome.Pass? <==> Seeded(old(rows), profiles, ids).Some?
      ensures outcome.Pass? ==> rows == Seeded(old(rows), profiles, ids).value
      ensures outcome.Fail? ==> exists i: nat :: StoppedAt(old(rows), profiles, ids, i, rows)
    {
      for i := 0 to |profiles|
        invariant Valid()
        invariant Seeded(old(rows), profiles[..i], ids[..i]) == Some(rows)
      {
        assert profiles[..i + 1][..i] == profiles[..i] && ids[..i + 1][..i] == ids[..i];
        var inserted := Insert(SeedRow(profiles[i], ids[i]));
        if inserted.Fail? {
          StaysRaised(old(rows), profiles, ids, i + 1);
          assert StoppedAt(old(rows), profiles, ids, i, rows);
          return Fail;
        }
      }
      assert profiles[..|profiles|] == profiles && ids[..|ids|] == ids;
      return Pass;
    }
  }

  lemma {:induction false} StaysRaised(rows: seq<Row>, profiles: seq<Profile>, ids: seq<string>, i: nat)
    requires |profiles| == |ids| && i <= |ids| && Seeded(rows, profiles[..i], ids[..i]) == None
    ensures Seeded(rows, profiles, ids) == None
    decreases |profiles|
  {
    if i < |profiles| {
      var n := |profiles| - 1;
      assert profiles[..n][..i] == profiles[..i] && ids[..n][..i] == ids[..i];
      StaysRaised(rows, profiles[..n], ids[..n], i);
    } else {
      assert profiles[..i] == profiles && ids[..i] == ids;
    }
  }

  /** An insert is skipped when a row has the same key and the same version, raises when one has the same
      identifier only, and appends otherwise. */
  lemma InsertedExactly(rows: seq<Row>, profile: Profile, id: string)
    ensures Inserted(rows, SeedRow(profile, id)) ==
            if exists row | row in rows :: row.profile.key == profile.key && row.profile.version == profile.version
            then Some(rows)
            else if exists row | row in rows :: row.id == id then None
            else Some(rows + [Row(id, profile, true)])
  {
  }

  // ---------------------------------------------------------------- what seeding adds

  predicate IsNew(rows: seq<Row>, profiles: seq<Profile>, i: nat)
    requires i < |profiles|
  {
    !HasProfile(rows, profiles[i]) && forall j | 0 <= j < i :: !SameKey(profiles[j], profiles[i])
  }

  /** The rows of the profiles whose key and version neither the table nor an earlier profile has. */
  function Missing(rows: seq<Row>, profiles: seq<Profile>, ids: seq<string>): seq<Row>
    requires |profiles| == |ids|
  {
    if profiles == [] then []
    else
      var n := |profiles| - 1;
      Missing(rows, profiles[..n], ids[..n])
      + if IsNew(rows, profiles, n) then [SeedRow(profiles[n], ids[n])] else []
  }

  lemma HasProfileOfConcat(rows: seq<Row>, more: seq<Row>, profile: Profile)
    ensures HasProfile(rows + more, profile) <==> HasProfile(rows, profile) || HasProfile(more, profile)
  {
    forall row | row in rows || row in more ensures row in rows + more {
    }
  }

  lemma {:induction false} MissingRows(rows: seq<Row>, profiles: seq<Profile>, ids: seq<string>)
    requires |profiles| == |ids|
    ensures forall row | row in Missing(rows, profiles, ids) ::
              row.isActive && !HasProfile(rows, row.profile) && row.profile in profiles && row.id in ids
  {
    if profiles == [] {
    } else {
      var n := |profiles| - 1;
      MissingRows(rows, profiles[..n], ids[..n]);
      assert profiles == profiles[..n] + [profiles[n]] && ids == ids[..n] + [ids[n]];
    }
  }

  lemma {:induction false} MissingCovers(rows: seq<Row>, profiles: seq<Profile>, ids: seq<string>)
    requires |profiles| == |ids|
    ensures forall profile | profile in profiles ::
              HasProfile(rows, profile) || HasProfile(Missing(rows, profiles, ids), profile)
  {
    if profiles == [] {
    } else {
      var n := |profiles| - 1;
      var before := Missing(rows, profiles[..n], ids[..n]);
      var missing := Missing(rows, profiles, ids);
      MissingCovers(rows, profiles[..n], ids[..n]);
      assert profiles == profiles[..n] + [profiles[n]];
      assert forall row | row in before :: row in missing;
      if IsNew(rows, profiles, n) {
        assert SeedRow(profiles[n], ids[n]) in missing;
      } else if !HasProfile(rows, profiles[n]) {
        var j :| 0 <= j < n && SameKey(profiles[j], profiles[n]);
        assert profiles[j] in profiles[..n];
        assert HasProfile(rows, profiles[j]) ==> HasProfile(rows, profiles[n]);
      }
    }
  }

  /** Seeding succeeds exactly when the rows it adds have identifiers of their own, and then it adds
      the missing profiles, in order, after the rows that are there. */
  lemma {:induction false} SeededExactly(rows: seq<Row>, profiles: seq<Profile>, ids: seq<string>)
    requires |profiles| == |ids| && UniqueIds(rows)
    ensures var after := rows + Missing(rows, profiles, ids);
            Seeded(rows, profiles, ids) == if UniqueIds(after) then Some(after) else None
  {
    if profiles == [] {
      assert rows + [] == rows;
    } else {
      var n := |profiles| - 1;
      var before := rows + Missing(rows, profiles[..n], ids[..n]);
      var after := rows + Missing(rows, profiles, ids);
      var row := SeedRow(profiles[n], ids[n]);
      SeededExactly(rows, profiles[..n], ids[..n]);
      NewExactly(rows, profiles, ids);
      if IsNew(rows, profiles, n) {
        assert after == before + [row];
        UniqueIdsAppend(before, row);
      } else {
        assert after == before;
      }
    }
  }

  lemma UniqueIdsAppend(rows: seq<Row>, row: Row)
    ensures UniqueIds(rows + [row]) <==> UniqueIds(rows) && !HasId(rows, row.id)
  {
    var all := rows + [row];
    assert all[|rows|] == row;
    assert forall i | 0 <= i < |rows| :: all[i] == rows[i];
  }

  lemma NewExactly(rows: seq<Row>, profiles: seq<Profile>, ids: seq<string>)
    requires |profiles| == |ids| > 0
    ensures var n := |profiles| - 1;
            HasProfile(rows + Missing(rows, profiles[..n], ids[..n]), profiles[n]) <==> !IsNew(rows, profiles, n)
  {
    var n := |profiles| - 1;
    var missing := Missing(rows, profiles[..n], ids[..n]);
    HasProfileOfConcat(rows, missing, profiles[n]);
    if !HasProfile(rows, profiles[n]) {
      if HasProfile(missing, profiles[n]) {
        var j := MissingIsEarlier(rows, profiles[..n], ids[..n], profiles[n]);
        assert SameKey(profiles[j], profiles[n]);
      }
      if j :| 0 <= j < n && SameKey(profiles[j], profiles[n]) {
        EarlierIsMissing(rows, profiles[..n], ids[..n], profiles[n], j);
      }
    }
  }

  lemma MissingIsEarlier(rows: seq<Row>, profiles: seq<Profile>, ids: seq<string>, profile: Profile) returns (j: nat)
    requires |profiles| == |ids| && HasProfile(Missing(rows, profiles, ids), profile)
    ensures j < |profiles| && SameKey(profiles[j], profile)
  {
    MissingRows(rows, profiles, ids);
    var row :| row in Missing(rows, profiles, ids) && SameKey(row.profile, profile);
    j :| 0 <= j < |profiles| && profiles[j] == row.profile;
  }

  lemma EarlierIsMissing(rows: seq<Row>, profiles: seq<Profile>, ids: seq<string>, profile: Profile, j: nat)
    requires |profiles| == |ids| && j < |profiles| && SameKey(profiles[j], profile) && !HasProfile(rows, profile)
    ensures HasProfile(Missing(rows, profiles, ids), profile)
  {
    MissingCovers(rows, profiles, ids);
    SameKeySameRows(rows, profiles[j], profile);
    SameKeySameRows(Missing(rows, profiles, ids), profiles[j], profile);
    assert profiles[j] in profiles;
  }

  lemma SameKeySameRows(rows: seq<Row>, a: Profile, b: Profile)
    requires SameKey(a, b)
    ensures HasProfile(rows, a) <==> HasProfile(rows, b)
  {
    forall row | row in rows ensures SameKey(row.profile, a) <==> SameKey(row.profile, b) {
    }
  }

  // ---------------------------------------------------------------- the laws

  lemma {:induction false} SeededKeepsKeys(rows: seq<Row>, profiles: seq<Profile>, ids: seq<string>)
    requires |profiles| == |ids| && UniqueKeys(rows) && UniqueIds(rows) && Seeded(rows, profiles, ids).Some?
    ensures UniqueKeys(Seeded(rows, profiles, ids).value) && UniqueIds(Seeded(rows, profiles, ids).value)
  {
    if profiles == [] {
    } else {
      var n := |profiles| - 1;
      SeededKeepsKeys(rows, profiles[..n], ids[..n]);
      var before := Seeded(rows, profiles[..n], ids[..n]).value;
      assert forall i | 0 <= i < |before| :: before[i] in before;
    }
  }

  /** After seeding the unique key holds, the earlier rows are where they were, every profile is
      present, and every added row is an active profile of the list that was absent. */
  lemma SeededResult(rows: seq<Row>, profiles: seq<Profile>, ids: seq<string>)
    requires |profiles| == |ids| && UniqueKeys(rows) && UniqueIds(rows) && Seeded(rows, profiles, ids).Some?
    ensures var after := Seeded(rows, profiles, ids).value;
            (forall i, j | 0 <= i < j < |after| ::
               after[i].profile.key != after[j].profile.key || after[i].profile.version != after[j].profile.version) &&
            (forall i, j | 0 <= i < j < |after| :: after[i].id != after[j].id) && rows <= after &&
            (forall profile | profile in profiles ::
               exists row | row in after :: row.profile.key == profile.key && row.profile.version == profile.version) &&
            (forall row | row in after[|rows|..] ::
               row.isActive && row.profile in profiles && row.id in ids &&
               forall earlier | earlier in rows ::
                 earlier.profile.key != row.profile.key || earlier.profile.version != row.profile.version)
  {
    SeededKeepsKeys(rows, profiles, ids);
    SeededExactly(rows, profiles, ids);
    MissingRows(rows, profiles, ids);
    MissingCovers(rows, profiles, ids);
    var missing := Missing(rows, profiles, ids);
    assert (rows + missing)[|rows|..] == missing;
    forall profile | profile in profiles ensures HasProfile(rows + missing, profile) {
      HasProfileOfConcat(rows, missing, profile);
    }
  }

  lemma {:induction false} NothingMissing(rows: seq<Row>, profiles: seq<Profile>, ids: seq<string>)
    requires |profiles| == |ids| && forall profile | profile in profiles :: HasProfile(rows, profile)
    ensures Missing(rows, profiles, ids) == []
  {
    if profiles == [] {
    } else {
      NothingMissing(rows, profiles[..|profiles| - 1], ids[..|ids| - 1]);
    }
  }

  /** Seeding again changes nothing and cannot fail, whatever the second identifiers. */
  lemma SeededTwice(rows: seq<Row>, profiles: seq<Profile>, first: seq<string>, second: seq<string>)
    requires |profiles| == |first| == |second| && UniqueKeys(rows) && UniqueIds(rows)
    requires Seeded(rows, profiles, first).Some?
    ensures var after := Seeded(rows, profiles, first).value;
            Seeded(after, profiles, second) == Some(after)
  {
    var after := Seeded(rows, profiles, first).value;
    SeededResult(rows, profiles, first);
    SeededExactly(after, profiles, second);
    NothingMissing(after, profiles, second);
    assert after + [] == after;
  }
}
