/** The names constraints get in the database, from the naming convention of the metadata that the
    migrations are run with. */
module Naming {

  /** Longer names are refused, or shortened when a convention made them. */
  const MAX_IDENTIFIER: nat := 63

  /** Hexadecimal digests, as md5 makes them. */
  type Digest = string -> string

  function LastFour(s: string): (r: string)
    ensures |r| <= 4
  {
    if |s| > 4 then s[|s| - 4..] else s
  }

  /** A name that is too long keeps its first 55 characters and gets the end of its digest. */
  function Shortened(name: string, md5: Digest): (r: string)
    ensures |r| <= MAX_IDENTIFIER
    ensures forall i | 0 <= i < 55 && i < |name| :: i < |r| && r[i] == name[i]
    ensures |name| <= MAX_IDENTIFIER ==> r == name
    ensures |name| > MAX_IDENTIFIER ==> |r| <= 60
  {
    if |name| <= MAX_IDENTIFIER then name else name[..MAX_IDENTIFIER - 8] + "_" + LastFour(md5(name))
  }

  /** A name in a migration: `op.f(...)` marks it as final. */
  datatype Given = Plain(text: string) | Final(text: string)

  /** The convention puts the table in front of a check's name, unless that is final. */
  function CheckName(table: string, given: Given, md5: Digest): string {
    match given
    case Plain(text) => Shortened("ck_" + table + "_" + text, md5)
    case Final(text) => Shortened(text, md5)
  }

  /** Of a foreign key that was given no name. */
  function ForeignKeyName(table: string, column: string, refTable: string, md5: Digest): string {
    Shortened("fk_" + table + "_" + column + "_" + refTable, md5)
  }

  /** Of a primary key that was given no name; its index has the same one. */
  function PrimaryKeyName(table: string, md5: Digest): string {
    Shortened("pk_" + table, md5)
  }

  /** Names of up to 63 characters are the convention's. */
  lemma ShortNames(table: string, text: string, column: string, refTable: string, md5: Digest)
    requires |table| + |text| <= 59 && |table| + |column| + |refTable| <= 58
    ensures CheckName(table, Plain(text), md5) == "ck_" + table + "_" + text
    ensures CheckName(table, Final(text), md5) == text
    ensures ForeignKeyName(table, column, refTable, md5) == "fk_" + table + "_" + column + "_" + refTable
    ensures PrimaryKeyName(table, md5) == "pk_" + table
  {
  }

  /** A longer one keeps 55 characters, and gets an underscore and the last four of its digest. */
  lemma LongName(text: string, front: string, back: string, md5: Digest)
    requires |text| > 63 && front <= text && |front| == 55
    requires |back| == 4 && |md5(text)| > 4 && md5(text)[|md5(text)| - 4..] == back
    ensures CheckName("", Final(text), md5) == front + "_" + back
  {
    assert text[..55] == front;
  }
}
