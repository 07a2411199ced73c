/**
 * `TrindadeGovernor`: intent declaration, risk-gated execution that writes a
 * signed trace per action, and full-history integrity verification.
 *
 * The secret, agent id and liability link are fixed at construction. The
 * governor writes to a `TraceTable`, the table at its database path, which
 * other governors opened on the same path may share. HMAC-SHA256 and SHA-256
 * are the uninterpreted functions `mac` and `digest`; the clock reading and
 * the nonce of each trace are parameters of the operation that writes it.
 */
module Governance {
  import opened Wrappers
  import opened Records
  import opened Risk
  import opened Ledger

  /** `hashlib.sha256(text.encode()).hexdigest()`: uninterpreted, but always a hex digest. */
  type Digest = f: string -> string | forall text :: IsHexDigest(f(text))
    witness (text: string) => seq(64, _ => '0')

  /** The exceptions the governor lets escape. */
  datatype Error = PermissionError(message: string) | TypeError(message: string)

  const BlockedMessage := "[CRITICAL] Blocked: WILD mode detected."
  const NonAsciiMessage := "comparing strings with non-ASCII characters is not supported"

  /**
   * `hmac.compare_digest` on two `str` values: equality, except that it
   * raises TypeError when either holds a non-ASCII character.
   */
  function CompareDigest(a: string, b: string): Result<bool, Error>
  {
    if !IsAscii(a) || !IsAscii(b) then Err(TypeError(NonAsciiMessage)) else Ok(a == b)
  }

  /** The agent id is part of the signed text: two agents never write the same entry. */
  lemma AgentIdIsSigned(r: Record, a1: string, a2: string)
    requires a1 != a2
    ensures Canonical(r.(aid := a1)) != Canonical(r.(aid := a2))
  {
    CanonicalInjective(r.(aid := a1), r.(aid := a2));
  }

  class TrindadeGovernor {
    const agentId: string
    const secret: string
    const liabilityLink: Option<string>
    const table: TraceTable
    const mac: Mac
    const digest: Digest
    var intentDeclared: Option<string>

    /** A new session: no intent yet; the table keeps whatever rows it already holds. */
    constructor (agentId: string, secretKey: string, liabilityLink: Option<string>,
                 table: TraceTable, mac: Mac, digest: Digest)
      ensures this.agentId == agentId && this.secret == secretKey
      ensures this.liabilityLink == liabilityLink && this.table == table
      ensures this.mac == mac && this.digest == digest
      ensures intentDeclared == None
    {
      this.agentId := agentId;
      this.secret := secretKey;
      this.liabilityLink := liabilityLink;
      this.table := table;
      this.mac := mac;
      this.digest := digest;
      intentDeclared := None;
    }

    /** The table verifies under this governor's key. */
    ghost predicate Sealed()
      reads this, table
    {
      Intact(mac, secret, table.rows)
    }

    /** Overwrites the intent, whatever it was; touches nothing else. */
    method DeclareIntent(objective: string)
      modifies this
      ensures intentDeclared == Some(objective)
      ensures unchanged(table)
    {
      intentDeclared := Some(objective);
    }

    /** `_sign_payload`: HMAC-SHA256 of the payload under the secret, hex-encoded. */
    function SignPayload(payload: string): (signature: string)
      ensures IsHexDigest(signature) && IsAscii(signature)
    {
      mac(secret, payload)
    }

    /**
     * The record `_generate_trace` builds for an action: the result itself is
     * not stored, only its SHA-256 hex digest; agent id and link are this
     * governor's.
     */
    function TraceRecord(action: string, payload: string, result: string, t: nat, nonce: string): Record
    {
      Record(action, agentId, liabilityLink, nonce, payload, digest(result), t)
    }

    /**
     * The signed text of a trace covers every field the caller chose: two
     * traces of this governor are signed over the same text exactly when
     * action, payload, timestamp, nonce and the digest of the result agree.
     */
    lemma SignedTextCoversFields(a1: string, p1: string, x1: string, t1: nat, n1: string,
                                 a2: string, p2: string, x2: string, t2: nat, n2: string)
      ensures Canonical(TraceRecord(a1, p1, x1, t1, n1)) == Canonical(TraceRecord(a2, p2, x2, t2, n2))
        <==> a1 == a2 && p1 == p2 && t1 == t2 && n1 == n2 && digest(x1) == digest(x2)
    {
      CanonicalInjective(TraceRecord(a1, p1, x1, t1, n1), TraceRecord(a2, p2, x2, t2, n2));
    }

    /**
     * `_generate_trace`: signs the canonical form of the trace record, appends
     * exactly that string and its signature to the table, and returns
     * `entry.signature`.
     */
    method GenerateTrace(action: string, payload: string, result: string, t: nat, nonce: string)
      returns (trace: string)
      modifies table
      ensures var entry := Canonical(TraceRecord(action, payload, result, t, nonce));
        && table.rows == old(table.rows) + [SignedRow(mac, secret, entry)]
        && trace == entry + "." + SignPayload(entry)
      ensures old(Sealed()) ==> Sealed()
    {
      var jsonData := Canonical(TraceRecord(action, payload, result, t, nonce));
      var signature := SignPayload(jsonData);
      table.Insert(jsonData, signature);
      if old(Sealed()) {
        AppendSignedKeepsIntact(mac, secret, old(table.rows), jsonData);
      }
      trace := jsonData + "." + signature;
    }

    /**
     * `verify_audit_integrity`: recomputes each row's signature in scan order
     * and stops at the first row that does not match. The comparison is
     * `compare_digest`, so a stored signature with a non-ASCII character
     * raises TypeError instead of returning False. `examined` is the number
     * of rows compared.
     */
    method VerifyAuditIntegrity() returns (r: Result<bool, Error>, ghost examined: nat)
      ensures r == Ok(true) <==> Intact(mac, secret, table.rows)
      ensures match FirstMismatch(mac, secret, table.rows)
        case None => r == Ok(true) && examined == |table.rows|
        case Some(k) =>
          && examined == k + 1
          && r == if IsAscii(table.rows[k].signature) then Ok(false) else Err(TypeError(NonAsciiMessage))
    {
      var rows := table.rows;
      var i := 0;
      while i < |rows|
        invariant 0 <= i <= |rows|
        invariant forall j | 0 <= j < i :: Signed(mac, secret, rows[j])
      {
        var row := rows[i];
        var same := CompareDigest(SignPayload(row.entry), row.signature);
        if same != Ok(true) {
          r, examined := same, i + 1;
          ghost var first := FirstMismatch(mac, secret, rows);
          assert first.Some? && first.value <= i;
          return;
        }
        i := i + 1;
      }
      r, examined := Ok(true), i;
    }

    /** `assign_risk`: the lattice over the intent, the table's row count and the link. Changes nothing. */
    method AssignRisk() returns (level: RiskLevel)
      ensures level == Lattice(intentDeclared, |table.rows|, liabilityLink)
      ensures level == Wild <==> !Truthy(intentDeclared)
    {
      if intentDeclared.None? || intentDeclared.value == "" {
        return Wild;
      }
      if |table.rows| == 0 {
        return Declared;
      }
      if liabilityLink.None? || liabilityLink.value == "" {
        return Traceable;
      }
      return Liable;
    }

    /**
     * `execute_action`: refused with PermissionError when the level is WILD,
     * leaving the table as it was; otherwise appends one signed trace of
     * `"OK_" + action_name` and returns that result.
     */
    method ExecuteAction(actionName: string, payload: string, t: nat, nonce: string)
      returns (r: Result<string, Error>)
      modifies table
      ensures r.Err? <==> !Truthy(intentDeclared)
      ensures r.Err? ==> r.error == PermissionError(BlockedMessage) && table.rows == old(table.rows)
      ensures r.Ok? ==> r.value == "OK_" + actionName
      ensures r.Ok? ==>
        table.rows == old(table.rows)
          + [SignedRow(mac, secret, Canonical(TraceRecord(actionName, payload, "OK_" + actionName, t, nonce)))]
      ensures r.Ok? ==>
        Lattice(intentDeclared, |table.rows|, liabilityLink) == if Truthy(liabilityLink) then Liable else Traceable
      ensures old(Sealed()) ==> Sealed()
    {
      var level := AssignRisk();
      if level == Wild {
        return Err(PermissionError(BlockedMessage));
      }
      var result := "OK_" + actionName;
      var trace := GenerateTrace(actionName, payload, result, t, nonce);
      return Ok(result);
    }
  }

  /** A session without a liability link: WILD, refused, DECLARED, executed, TRACEABLE, verified. */
  method UnlinkedSession(mac: Mac, digest: Digest, t: nat, nonce: string)
  {
    var table := new TraceTable([]);
    var gov := new TrindadeGovernor("agent", "k1", None, table, mac, digest);
    var level := gov.AssignRisk();
    assert level == Wild;
    var blocked := gov.ExecuteAction("A", "p", t, nonce);
    assert blocked.Err? && table.rows == [];
    gov.DeclareIntent("x");
    level := gov.AssignRisk();
    assert level == Declared;
    var done := gov.ExecuteAction("A", "p", t, nonce);
    assert done.Ok? && |table.rows| == 1;
    level := gov.AssignRisk();
    assert level == Traceable;
    var verdict, _ := gov.VerifyAuditIntegrity();
    assert verdict == Ok(true);
  }

  /** The same session with liability link "L1": WILD, DECLARED, executed, LIABLE. */
  method LinkedSession(mac: Mac, digest: Digest, t: nat, nonce: string)
  {
    var table := new TraceTable([]);
    var gov := new TrindadeGovernor("agent", "k1", Some("L1"), table, mac, digest);
    var level := gov.AssignRisk();
    assert level == Wild;
    gov.DeclareIntent("x");
    level := gov.AssignRisk();
    assert level == Declared;
    var done := gov.ExecuteAction("A", "p", t, nonce);
    assert done == Ok("OK_" + "A");
    level := gov.AssignRisk();
    assert level == Liable;
  }

  /** Any number of executions from an empty table leaves a table that verifies. */
  method RepeatedExecutions(mac: Mac, digest: Digest, actions: seq<string>, t: nat, nonce: string)
  {
    var table := new TraceTable([]);
    var gov := new TrindadeGovernor("agent", "k1", None, table, mac, digest);
    gov.DeclareIntent("x");
    for i := 0 to |actions|
      invariant gov.table == table && gov.intentDeclared == Some("x")
      invariant gov.Sealed() && |table.rows| == i
    {
      var done := gov.ExecuteAction(actions[i], "p", t, nonce);
    }
    var verdict, _ := gov.VerifyAuditIntegrity();
    assert verdict == Ok(true);
  }
}
