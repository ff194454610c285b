/**
  The decision part of the input policy (policy-engine.ts). What the detectors find in a text
  is a parameter; the policy decides on those findings and writes four audit events.
 */
module SecurityPolicy {

  datatype Decision = Allow | RequireApproval | Deny

  datatype Mode = Diagnose | Operate

  datatype Intent = Observe | Change | PrivilegeEscalation | SecretAccess

  /** What the prompt-injection detector and the intent classifier report about a text. */
  datatype Findings = Findings(injectionScore: int, intent: Intent, requestedChange: bool)

  datatype Verdict = Verdict(decision: Decision, riskScore: int)

  datatype AuditEvent =
    | IntentReceived(mode: Mode)
    | InjectionScanned(riskScore: int)
    | IntentClassified(intent: Intent)
    | PolicyDenied(riskScore: int)
    | PolicyApprovalRequired(riskScore: int)
    | PolicyAllowed(riskScore: int)

  predicate Dangerous(f: Findings) {
    f.injectionScore >= 60 || f.intent.PrivilegeEscalation? || f.intent.SecretAccess?
  }

  function Max(a: int, b: int): int {
    if a < b then b else a
  }

  function Evaluate(f: Findings, mode: Mode): Verdict {
    var base := Max(f.injectionScore, if f.requestedChange then 55 else 10);
    if Dangerous(f) then Verdict(Deny, Max(base, 90))
    else if f.requestedChange || mode == Operate then Verdict(RequireApproval, Max(base, 60))
    else Verdict(Allow, base)
  }

  /** The audit event that closes an evaluation. */
  function Closing(v: Verdict): AuditEvent {
    match v.decision
    case Deny => PolicyDenied(v.riskScore)
    case RequireApproval => PolicyApprovalRequired(v.riskScore)
    case Allow => PolicyAllowed(v.riskScore)
  }

  class AuditLog {
    var events: seq<AuditEvent>

    constructor ()
      ensures events == []
    {
      events := [];
    }

    /** evaluateInputSecurity: the verdict, and exactly four events appended in a fixed order. */
    method EvaluateInputSecurity(f: Findings, mode: Mode) returns (v: Verdict)
      modifies this
      ensures v == Evaluate(f, mode)
      ensures events == old(events)
              + [IntentReceived(mode), InjectionScanned(f.injectionScore), IntentClassified(f.intent), Closing(v)]
    {
      events := events + [IntentReceived(mode)];
      events := events + [InjectionScanned(f.injectionScore)];
      events := events + [IntentClassified(f.intent)];
      var decision := Allow;
      var riskScore := Max(f.injectionScore, if f.requestedChange then 55 else 10);
      if f.injectionScore >= 60 || f.intent == PrivilegeEscalation || f.intent == SecretAccess {
        decision := Deny;
        riskScore := Max(riskScore, 90);
      } else if f.requestedChange || mode == Operate {
        decision := RequireApproval;
        riskScore := Max(riskScore, 60);
      }
      v := Verdict(decision, riskScore);
      events := events + [Closing(v)];
    }
  }
}
