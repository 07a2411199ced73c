# Trindade governor — a Dafny model

This project models `TrindadeGovernor` from `governor.py`. It is a
tamper-evident action ledger. Each action an agent asks to execute is gated
by a derived risk level, recorded as a canonical JSON record, signed with
HMAC-SHA256 under the governor's secret and appended to the `traces` table.
`verify_audit_integrity` re-checks the whole history.

Modules, one per component of the governor:

- `Wrappers` (wrappers.dfy): `Option` for Python's `Optional`, `Result` for a call that may raise.
- `Records` (records.dfy): the seven-field trace record and its canonical text.
  The text is what `json.dumps(..., sort_keys=True)` writes, with keys
  `act, aid, lib, nonce, pay, res, t`. The file also holds a parser for that
  text and proofs that the parser and the printer are inverse in both
  directions. So the canonical text is injective, which is what makes the
  signature cover every field.
- `Risk` (risk.dfy): `RiskLevel` with its IntEnum values and the `assign_risk`
  decision list as a pure function, `Lattice`, of intent, row count and
  liability link. Python truthiness is kept: `None` and `""` are both "not set".
- `Ledger` (ledger.dfy): the rows of the `traces` table. It defines what it
  means for a row to be signed and the first-mismatch scan that verification
  performs. The table itself is the class `TraceTable`, an object because
  every governor opened on the same `db_path` shares it. A row's AUTOINCREMENT
  id is its index plus one.
- `Governance` (governance.dfy): the class `TrindadeGovernor`. Its fields are
  the immutable agent id, secret, liability link and table, plus the mutable
  `intentDeclared`. Its methods are `DeclareIntent`, `GenerateTrace`,
  `VerifyAuditIntegrity`, `AssignRisk` and `ExecuteAction`.
  `SignPayload` is `_sign_payload` and `CompareDigest` is `hmac.compare_digest`.
  Two client methods (`UnlinkedSession`, `LinkedSession`) walk a session
  through WILD and DECLARED, then to TRACEABLE or LIABLE, using only the
  contracts. A third (`RepeatedExecutions`) runs a loop of executions and
  then verifies the table.

Foreign pieces and how they appear:

- HMAC-SHA256 is the function-typed argument `mac(key, message)`.
- SHA-256 is `digest(text)`.
- Both are uninterpreted. The one thing assumed of them is what `hexdigest()`
  guarantees: every value is 64 lower-case hexadecimal digits.
- `time.time()` and `secrets.token_hex(8)` are the parameters `t` and `nonce`
  of `GenerateTrace` and `ExecuteAction`.
- `hmac.compare_digest` on two strings is equality. It raises TypeError
  when either string holds a non-ASCII character, and the model does the same.

The signature invariant is `TrindadeGovernor.Sealed()`: every stored
signature equals `mac(secret, entry)`. `GenerateTrace` and `ExecuteAction`
preserve it. Applied once per call, this shows that a governor starting from an
empty table still verifies after any number of executions; the client method
`RepeatedExecutions` does exactly that. `SealedHistoryIntact` states the same
fact about the rows alone: an intact table followed by any sequence of signed
rows is intact. `assign_risk` changes no state: `AssignRisk` has no
`modifies` clause, so two calls in a row return the same level.

Three behaviours of `governor.py` that a reader might expect otherwise:

- The secret key is not validated, so an empty secret is accepted.
- Verification returns a single boolean at the first mismatch, not a list of every failing row.
- A refused action raises Python's `PermissionError`, with its message.

## Model

| member | source | states |
|---|---|---|
| `Risk.Lattice` | governor.py:85-93 | WILD exactly when the intent is None or ""; DECLARED exactly when it is set and the table is empty; TRACEABLE exactly when it is set, the table is non-empty and the link is None or ""; LIABLE exactly when it is set, the table is non-empty and the link is set |
| `Risk.LatticeNeverReserved` | governor.py:11-17 | CONSTRAINED and SOVEREIGN are never assigned |
| `Risk.UndeclaredIsWild` | governor.py:87 | an intent of None or "" gives WILD, whatever the row count and the link |
| `Risk.LevelWithHistory` | governor.py:89-93 | with a non-empty intent and at least one row, the level is LIABLE if the link is set and TRACEABLE otherwise |
| `Risk.LatticeMonotoneInCount` | governor.py:88-90 | more rows never give a lower level (IntEnum order) |
| `Risk.DeclaringRaisesLevel` | governor.py:48-50 | declaring a non-empty objective never lowers the level and leaves WILD |
| `Risk.LinkedSessionSkipsTraceable` | governor.py:91-93 | with a link set, the level is only ever WILD, DECLARED or LIABLE |
| `Records.Canonical` | governor.py:68 | the json.dumps(sort_keys=True) text of the record. Its contract is the round trip: parsing the text gives the record back. `CanonicalParse` and `CanonicalInjective` carry its other properties |
| `Records.CanonicalParse` | governor.py:68 | any text the parser accepts is exactly the canonical text of the record it returns |
| `Records.CanonicalInjective` | governor.py:59-69 | two records have the same canonical (signed) text if and only if they are equal (a corollary of `Canonical`'s round trip) |
| `Ledger.FirstMismatch` | governor.py:79-83 | the in-order scan finds no mismatch iff every row's stored signature equals the recomputed one; otherwise it returns a row that mismatches, and every row before it matches |
| `Ledger.SealAll` | governor.py:68-72 | successive writes produce one row per entry, in order, each holding its entry and that entry's signature |
| `Ledger.AppendSignedKeepsIntact` | governor.py:68-72 | appending a row signed over its own entry keeps an intact table intact, and verification still finds no mismatch |
| `Ledger.SealedHistoryIntact` | governor.py:68-83 | an intact table (in particular an empty one) still verifies after any sequence of signed appends |
| `Ledger.TamperDetected` | governor.py:79-83 | in an intact table, replacing row k by a row whose signature does not match makes k the first mismatch, and no later row mismatches |
| `Ledger.TraceTable.constructor` | governor.py:36-46 | opening the table keeps the rows it already holds (CREATE TABLE IF NOT EXISTS) |
| `Ledger.TraceTable.Insert` | governor.py:71-72 | an insert appends exactly one row at the end and leaves earlier rows unchanged |
| `Governance.TrindadeGovernor.SignPayload` | governor.py:53-55 | the MAC of the payload under the governor's secret, a 64-character hex digest and so ASCII |
| `Governance.TrindadeGovernor.SignedTextCoversFields` | governor.py:59-69 | two traces of one governor are signed over the same text if and only if their action, payload, timestamp, nonce and result digest all agree. So the signature covers every field of the record, and of the result it covers only the digest |
| `Governance.AgentIdIsSigned` | governor.py:59-69 | records that differ only in agent id have different signed texts |
| `Governance.TrindadeGovernor.constructor` | governor.py:28-34 | the fields are set from the arguments and no intent is declared |
| `Governance.TrindadeGovernor.DeclareIntent` | governor.py:48-50 | the intent becomes the objective, overwriting any earlier one; the table is unchanged |
| `Governance.TrindadeGovernor.GenerateTrace` | governor.py:57-74 | appends exactly one row: the canonical text of the record `TraceRecord` builds (governor.py:59-67: t, nonce, agent id, action, payload, SHA-256 digest of the result, link) and the MAC over that same text. Returns `entry.signature` and preserves the signature invariant |
| `Governance.TrindadeGovernor.VerifyAuditIntegrity` | governor.py:76-83 | returns True iff every row's recomputed signature equals the stored one. Otherwise it has compared rows up to and including the first mismatch and no further. It returns False there if that row's stored signature is ASCII and raises TypeError (from compare_digest) if it is not; on True it has compared every row |
| `Governance.TrindadeGovernor.AssignRisk` | governor.py:85-93 | returns the lattice level for the current intent, row count and link; WILD exactly when the intent is None or "" |
| `Governance.TrindadeGovernor.ExecuteAction` | governor.py:95-105 | fails with PermissionError, the table unchanged, exactly when the level is WILD. Otherwise returns "OK_" + action name and appends exactly one signed row for that result. Afterwards the level is LIABLE with a link and TRACEABLE without one, and the signature invariant is preserved |

## Left out

- SQLite itself (the connection, the table creation and the `CURRENT_TIMESTAMP` column, governor.py:36-46, 71-72, 78-79, 88-89): the table is an in-memory sequence of rows, and an insert cannot fail.
- The internals of HMAC-SHA256 and SHA-256 (governor.py:55, 65): these are uninterpreted functions. So no lemma can claim that a different entry gives a different MAC; tamper detection is stated for a row whose signature does not match.
- The timing behaviour of `hmac.compare_digest` (governor.py:81): it is not expressible here; the comparison is equality plus the non-ASCII TypeError.
- VerifyAuditIntegrity: scans the rows in insertion (rowid) order. `SELECT entry, signature FROM traces` (governor.py:79) has no ORDER BY, so this is SQLite's full-table scan order for a rowid table, not a guarantee of SQL. The order decides which mismatching row is met first, and so whether False or TypeError results. Whether the result is True does not depend on it.
- `time.time()` and `secrets.token_hex(8)` (governor.py:60-61): the clock reading and the nonce are parameters. The timestamp is a natural number printed in decimal, not a float, so json.dumps' float formatting is not modelled.
- JSON string escaping beyond `"` and `\` (governor.py:68): json.dumps also escapes control characters and, by default, non-ASCII characters as `\uXXXX`. The model writes those characters as they are.
- `secret_key.encode()` (governor.py:30): the key is kept as a string. UTF-8 encoding is injective, so nothing depends on this.
- The `print` calls (governor.py:51, 104). The second `assign_risk` call at governor.py:104 serves only that print and changes nothing.
- The `__main__` demo and its deletion of the database file (governor.py:108-125).
