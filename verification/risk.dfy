/**
 * The risk levels and the lattice function of `assign_risk`.
 *
 * The lattice is a first-match decision list over three facts: whether an
 * intent is declared, whether the ledger is empty, whether a liability link
 * is attached. "Declared" and "attached" follow Python truthiness: `None`
 * and the empty string both count as absent.
 */
module Risk {
  import opened Wrappers

  /** `RiskLevel`, an IntEnum: WILD < DECLARED < TRACEABLE < CONSTRAINED < LIABLE < SOVEREIGN. */
  datatype RiskLevel = Wild | Declared | Traceable | Constrained | Liable | Sovereign
  {
    /** The IntEnum value. */
    function Value(): nat
    {
      match this
      case Wild => 0
      case Declared => 1
      case Traceable => 2
      case Constrained => 3
      case Liable => 4
      case Sovereign => 5
    }

    predicate AtMost(other: RiskLevel)
    {
      Value() <= other.Value()
    }
  }

  /** Python truthiness of an `Optional[str]`: neither None nor "". */
  predicate Truthy(s: Option<string>)
  {
    s.Some? && s.value != ""
  }

  /** The decision list of `assign_risk`, with the ledger's row count as an input. */
  function Lattice(intent: Option<string>, count: nat, link: Option<string>): (r: RiskLevel)
    ensures r == Wild <==> !Truthy(intent)
    ensures r == Declared <==> Truthy(intent) && count == 0
    ensures r == Traceable <==> Truthy(intent) && count > 0 && !Truthy(link)
    ensures r == Liable <==> Truthy(intent) && count > 0 && Truthy(link)
  {
    if !Truthy(intent) then Wild
    else if count == 0 then Declared
    else if !Truthy(link) then Traceable
    else Liable
  }

  /** CONSTRAINED and SOVEREIGN are never assigned. */
  lemma LatticeNeverReserved(intent: Option<string>, count: nat, link: Option<string>)
    ensures Lattice(intent, count, link) != Constrained
    ensures Lattice(intent, count, link) != Sovereign
  {
  }

  /** Corollary of `Lattice`'s contract: an undeclared or empty intent is WILD whatever the ledger and the link hold. */
  lemma UndeclaredIsWild(intent: Option<string>, count: nat, link: Option<string>)
    requires intent == None || intent == Some("")
    ensures Lattice(intent, count, link) == Wild
  {
  }

  /** Corollary of `Lattice`'s contract: once the ledger has an entry, the level is TRACEABLE without a link and LIABLE with one. */
  lemma LevelWithHistory(intent: string, count: nat, link: Option<string>)
    requires intent != "" && count > 0
    ensures Lattice(Some(intent), count, link) == if Truthy(link) then Liable else Traceable
  {
  }

  /** Recording history never lowers the level. */
  lemma LatticeMonotoneInCount(intent: Option<string>, c1: nat, c2: nat, link: Option<string>)
    requires c1 <= c2
    ensures Lattice(intent, c1, link).AtMost(Lattice(intent, c2, link))
  {
  }

  /** Declaring a (non-empty) intent never lowers the level. */
  lemma DeclaringRaisesLevel(intent: Option<string>, objective: string, count: nat, link: Option<string>)
    requires objective != ""
    ensures Lattice(intent, count, link).AtMost(Lattice(Some(objective), count, link))
    ensures Lattice(Some(objective), count, link) != Wild
  {
  }

  /** Corollary of `Lattice`'s contract: a session with a liability link never visits TRACEABLE. */
  lemma LinkedSessionSkipsTraceable(intent: Option<string>, count: nat, link: Option<string>)
    requires Truthy(link)
    ensures Lattice(intent, count, link) in {Wild, Declared, Liable}
  {
  }
}
