/** The safety gate both drivers put in front of every command. */
module SafetyGate {
  import opened Text

  datatype Safety = ReadOnly | StateChangeSafe | RfRisk | DestructiveOrUnknown

  datatype Gate = Gate(dryRun: bool, allowControl: bool, allowRfRisk: bool)

  datatype Refusal = BlockedByDryRun | RequiresAllowControl | RequiresAllowRfRisk

  function EnsureCanSend(g: Gate, safety: Safety): Option<Refusal> {
    if g.dryRun && safety != ReadOnly then Some(BlockedByDryRun)
    else if safety == StateChangeSafe && !g.allowControl then Some(RequiresAllowControl)
    else if safety == RfRisk && !g.allowRfRisk then Some(RequiresAllowRfRisk)
    else None
  }

  predicate CommandAllowed(g: Gate, safety: Safety) {
    && (safety == ReadOnly || !g.dryRun)
    && (safety != StateChangeSafe || g.allowControl)
    && (safety != RfRisk || g.allowRfRisk)
  }
}
