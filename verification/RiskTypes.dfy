/** Decisions and degradations exchanged by the risk rules (internal/riskcontrol/types.go, degrade.go). */
module RiskTypes {
  import opened Basics

  /** `Unset` is the empty string; `Invalid` is any string that is not a verdict. */
  datatype Verdict = Approve | Modify | Reject | Unset | Invalid(text: string)

  datatype Degradation = Degradation(urgency: Option<int>, deadline: Option<int>)

  datatype RiskDecision = RiskDecision(verdict: Verdict, ruleId: string, reason: string, degrade: Option<Degradation>)

  const COOLDOWN_RULE_ID := "cooldown_frequency"
  const PRICE_RULE_ID := "price_source_divergence"
  const HALT_RULE_ID := "risk_mode_halt"
  const DRY_RUN_RULE_ID := "force_dry_run"
}
