/**
 * The `traces` table: an append-only, insertion-ordered sequence of
 * (entry, signature) rows, and what it means for the table to verify.
 *
 * A row's AUTOINCREMENT id is its index in `rows` plus one; the
 * `CURRENT_TIMESTAMP` column is informational and not modelled.
 * The keyed MAC (HMAC-SHA256, hex-encoded) is a parameter `mac(key, message)`.
 */
module Ledger {
  import opened Wrappers

  datatype Row = Row(entry: string, signature: string)

  predicate IsAscii(s: string)
  {
    forall i | 0 <= i < |s| :: s[i] as int < 128
  }

  /** What `hexdigest()` of SHA-256 returns: 64 lower-case hexadecimal digits. */
  predicate IsHexDigest(s: string)
  {
    |s| == 64 && forall i | 0 <= i < |s| :: '0' <= s[i] <= '9' || 'a' <= s[i] <= 'f'
  }

  /**
   * `hmac.new(key, message, sha256).hexdigest()`: an otherwise uninterpreted
   * function whose every value is a hex digest.
   */
  type Mac = f: (string, string) -> string | forall key, message :: IsHexDigest(f(key, message))
    witness (key: string, message: string) => seq(64, _ => '0')

  /** The row for `entry`, signed under `key`. */
  function SignedRow(mac: Mac, key: string, entry: string): Row
  {
    Row(entry, mac(key, entry))
  }

  /** The stored signature matches the one recomputed over the stored entry. */
  predicate Signed(mac: Mac, key: string, row: Row)
  {
    mac(key, row.entry) == row.signature
  }

  /** Every row of the table is signed under `key`. */
  predicate Intact(mac: Mac, key: string, rows: seq<Row>)
  {
    forall i | 0 <= i < |rows| :: Signed(mac, key, rows[i])
  }

  /**
   * The index of the first row, in insertion order, whose recomputed
   * signature differs from the stored one; None when there is none.
   */
  function FirstMismatch(mac: Mac, key: string, rows: seq<Row>): (r: Option<nat>)
    ensures r.None? <==> Intact(mac, key, rows)
    ensures r.Some? ==> r.value < |rows| && !Signed(mac, key, rows[r.value])
    ensures r.Some? ==> forall j | 0 <= j < r.value :: Signed(mac, key, rows[j])
  {
    if rows == [] then None
    else if !Signed(mac, key, rows[0]) then Some(0)
    else match FirstMismatch(mac, key, rows[1..])
      case None => None
      case Some(k) => Some(k + 1)
  }

  /** The rows that `n` entries produce when each is signed under `key` as it is written. */
  function SealAll(mac: Mac, key: string, entries: seq<string>): (rows: seq<Row>)
    ensures |rows| == |entries|
    ensures forall i | 0 <= i < |entries| :: rows[i] == SignedRow(mac, key, entries[i])
  {
    if entries == [] then [] else [SignedRow(mac, key, entries[0])] + SealAll(mac, key, entries[1..])
  }

  /** Appending a row signed under `key` keeps an intact table intact. */
  lemma AppendSignedKeepsIntact(mac: Mac, key: string, rows: seq<Row>, entry: string)
    requires Intact(mac, key, rows)
    ensures Intact(mac, key, rows + [SignedRow(mac, key, entry)])
    ensures FirstMismatch(mac, key, rows + [SignedRow(mac, key, entry)]) == None
  {
  }

  /**
   * An intact table stays intact after any number of further appends of
   * signed entries; in particular a table that starts empty verifies after
   * any sequence of writes by holders of the key.
   */
  lemma SealedHistoryIntact(mac: Mac, key: string, rows: seq<Row>, entries: seq<string>)
    requires Intact(mac, key, rows)
    ensures FirstMismatch(mac, key, rows + SealAll(mac, key, entries)) == None
  {
  }

  /**
   * Tamper detection: in an intact table, replacing row `k` by a row whose
   * signature does not match its entry makes row `k` the first mismatch and
   * the only one.
   */
  lemma TamperDetected(mac: Mac, key: string, rows: seq<Row>, k: nat, forged: Row)
    requires Intact(mac, key, rows)
    requires k < |rows| && !Signed(mac, key, forged)
    ensures FirstMismatch(mac, key, rows[k := forged]) == Some(k)
    ensures FirstMismatch(mac, key, rows[k := forged][k + 1..]) == None
  {
    var r := FirstMismatch(mac, key, rows[k := forged]);
    assert rows[k := forged][k] == forged;
    assert r.Some?;
    assert r.value == k;
  }

  /**
   * The SQLite `traces` table at one database path. Every governor opened
   * on the same path shares the same table, so it is an object.
   */
  class TraceTable {
    var rows: seq<Row>

    /** The table as `CREATE TABLE IF NOT EXISTS` finds it: empty, or the rows an earlier session left. */
    constructor (existing: seq<Row>)
      ensures rows == existing
    {
      rows := existing;
    }

    /** `INSERT INTO traces (entry, signature) VALUES (?, ?)`: one row, at the end. */
    method Insert(entry: string, signature: string)
      modifies this
      ensures rows == old(rows) + [Row(entry, signature)]
    {
      rows := rows + [Row(entry, signature)];
    }
  }
}
