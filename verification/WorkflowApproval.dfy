/**
  Approval gates. In every run of a compiled list, nothing after an approval step runs before a
  resume approved it; and in the built-in security Loop the operation step runs only after approval.
 */
module WorkflowApproval {
  import opened SecurityPolicy
  import opened WorkflowModel
  import opened WorkflowCompiler
  import opened WorkflowCorrectness
  import opened WorkflowProperties

  /** Running a list is running its front and, if that finishes, its back from there. */
  lemma {:induction false} InterpretAppend(env: Env, front: seq<Step>, back: seq<Step>, h: History, c: Context)
    ensures var r := Interpret(env, front, h, c);
            Interpret(env, front + back, h, c) ==
            if r.outcome.Done? then Interpret(env, back, r.h, r.outcome.ctx) else r
    decreases |front|
  {
    if front == [] {
      assert front + back == back;
    } else {
      assert (front + back)[0] == front[0] && (front + back)[1..] == front[1..] + back;
      var r := InterpretStep(env, front[0], h, c);
      if r.outcome.Done? {
        InterpretAppend(env, front[1..], back, r.h, r.outcome.ctx);
      }
    }
  }

  predicate IsApproval(s: Step) {
    s.kind == Approval
  }

  /** A compiled list with an approval step in it: either the run never gets past the approval,
      and then it is exactly the run of the list cut off after it; or a resume with approved=true
      is the event at which the rest of the list starts. */
  lemma {:induction false} ApprovalGate(env: Env, front: seq<Step>, gate: Step, back: seq<Step>, id: string, h: History,
                                        c: Context)
    requires IsApproval(gate)
    ensures var upTo := Interpret(env, front + [gate], h, c);
            var whole := RunProgram(env, CompileSequence(front + [gate] + back, id), h, c);
            if upTo.outcome.Done? then
              && upTo.h != [] && upTo.h[|upTo.h| - 1] == Approved(gate.id)
              && upTo.h <= whole.h
              && whole == Interpret(env, back, upTo.h, upTo.outcome.ctx)
            else whole == upTo
  {
    var upTo := Interpret(env, front + [gate], h, c);
    CompileCorrect(env, front + [gate] + back, id, h, c);
    InterpretAppend(env, front + [gate], back, h, c);
    InterpretAppend(env, front, [gate], h, c);
    assert [gate][1..] == [];
    if upTo.outcome.Done? {
      var before := Interpret(env, front, h, c);
      assert upTo == Interpret(env, [gate], before.h, before.outcome.ctx);
      assert upTo == RunLeaf(env, gate, before.h, before.outcome.ctx);
      HistoryGrows(env, back, upTo.h, upTo.outcome.ctx);
    }
  }

  // ---------------------------------------------------------------- the built-in security Loop

  function PlainStep(id: string, kind: StepKind): Step {
    Step(id, kind, 0, NoCondition, NoParallel, NoLoop)
  }

  const SECURITY := PlainStep("security", SecurityCheck)
  const APPROVAL := PlainStep("approval", Approval)
  const READ_PLAN := PlainStep("read_plan", Agent)
  /** results.security.decision */
  const GATE_PATH: string := "results" + "." + ("security" + "." + "decision")
  const GATE_RULE := Rule(GATE_PATH, Equals, Some("require-approval"))
  const APPROVAL_GATE :=
    Step("approval_gate", ConditionKind, 0, Condition(GATE_RULE, [APPROVAL], [READ_PLAN]), NoParallel, NoLoop)
  const OPERATION := PlainStep("operation", Operation)
  const VERIFY := PlainStep("verify", Verify)

  const SECURITY_LOOP: seq<Step> := [SECURITY, APPROVAL_GATE, OPERATION, VERIFY]

  lemma {:induction false} SplitAtDot(a: string, b: string)
    requires '.' !in a
    ensures Split(a + "." + b, '.') == [a] + Split(b, '.')
    decreases |a|
  {
    var s := a + "." + b;
    if a == "" {
      assert s[0] == '.' && s[1..] == b;
      assert [""] + Split(b, '.') == [a] + Split(b, '.');
    } else {
      assert s[0] == a[0] && s[1..] == a[1..] + "." + b;
      SplitAtDot(a[1..], b);
      assert [a[0]] + a[1..] == a;
      var rest := Split(s[1..], '.');
      assert rest[0] == a[1..] && rest[1..] == Split(b, '.');
    }
  }

  lemma {:induction false} SplitPlain(a: string)
    requires '.' !in a
    ensures Split(a, '.') == [a]
    decreases |a|
  {
    if a != "" {
      SplitPlain(a[1..]);
      assert [a[0]] + a[1..] == a;
    }
  }

  lemma {:induction false} SplitThree(a: string, b: string, c: string)
    requires '.' !in a && '.' !in b && '.' !in c && a != "" && b != "" && c != ""
    ensures NonEmpty(Split(a + "." + (b + "." + c), '.')) == [a, b, c]
  {
    SplitAtDot(a, b + "." + c);
    SplitAtDot(b, c);
    SplitPlain(c);
    var parts := [a, b, c];
    assert Split(a + "." + (b + "." + c), '.') == parts;
    assert parts[1..] == [b, c] && [b, c][1..] == [c] && [c][1..] == [];
    assert NonEmpty([c]) == [c];
    assert NonEmpty([b, c]) == [b, c];
  }

  lemma {:induction false} DescendThree(env: Env, v: Value, a: string, b: string, c: string)
    ensures DescendAll(env, v, [a, b, c]) == Descend(env, Descend(env, Descend(env, v, a), b), c)
  {
    assert [a, b, c][1..] == [b, c] && [b, c][1..] == [c] && [c][1..] == [];
    var v1 := Descend(env, v, a);
    assert DescendAll(env, v, [a, b, c]) == DescendAll(env, v1, [b, c]);
    var v2 := Descend(env, v1, b);
    assert DescendAll(env, v1, [b, c]) == DescendAll(env, v2, [c]);
    var v3 := Descend(env, v2, c);
    assert DescendAll(env, v2, [c]) == DescendAll(env, v3, []) == v3;
  }

  /** Reading a dotted path of three plain segments. */
  lemma {:induction false} ReadThree(env: Env, x: Context, a: string, b: string, c: string)
    requires '.' !in a && '.' !in b && '.' !in c && a != "" && b != "" && c != ""
    ensures ReadPath(env, x, a + "." + (b + "." + c)) == Descend(env, Descend(env, Descend(env, AsValue(x), a), b), c)
  {
    SplitThree(a, b, c);
    DescendThree(env, AsValue(x), a, b, c);
  }

  /** Reading the gate's path finds the decision the security step stored. */
  lemma {:induction false} GateReads(env: Env, c: Context, v: Verdict)
    requires "security" in c.results && c.results["security"] == VerdictValue(v)
    ensures ReadPath(env, c, GATE_PATH) == Str(DecisionText(v.decision))
  {
    ReadThree(env, c, "results", "security", "decision");
    assert Descend(env, AsValue(c), "results") == Obj(c.results);
    assert Descend(env, Obj(c.results), "security") == VerdictValue(v);
  }

  /** In operate mode the policy never allows: it denies or requires approval. */
  lemma OperateNeverAllows(f: Findings)
    ensures var v := Evaluate(f, Operate);
            && (v.decision == Deny <==> Dangerous(f))
            && (v.decision == RequireApproval <==> !Dangerous(f))
            && (v.decision == Deny ==> v.riskScore >= 90)
            && (v.decision == RequireApproval ==> v.riskScore >= 60)
  {}

  lemma {:induction false} GateTaken(env: Env, h: History, c: Context, v: Verdict)
    requires "security" in c.results && c.results["security"] == VerdictValue(v) && v.decision == RequireApproval
    ensures InterpretStep(env, APPROVAL_GATE, h, c) == RunLeaf(env, APPROVAL, h, c)
  {
    GateReads(env, c, v);
    assert CompareRule(env, c, GATE_RULE);
    assert [APPROVAL][1..] == [];
    var g := InterpretStep(env, APPROVAL, h, c);
    assert Interpret(env, [APPROVAL], h, c) == g;
  }

  /** After the security step, the gate takes its approval branch. */
  lemma {:induction false} SecurityThenGate(env: Env, h: History, c: Context)
    ensures var r := Interpret(env, [SECURITY, APPROVAL_GATE], h, c);
            || (r == Run(h + [Ran("security")], Failed) && Dangerous(env.findings(c.message)))
            || (!Dangerous(env.findings(c.message))
                && exists c1 :: r == RunLeaf(env, APPROVAL, h + [Ran("security")], c1))
  {
    var r1 := RunLeaf(env, SECURITY, h, c);
    assert Retry(env, SECURITY, h, c, 0) == Attempt(env, SECURITY, h, c, 0);
    var steps := [SECURITY, APPROVAL_GATE];
    assert steps[1..] == [APPROVAL_GATE] && [APPROVAL_GATE][1..] == [];
    assert InterpretStep(env, SECURITY, h, c) == r1;
    OperateNeverAllows(env.findings(c.message));
    if r1.outcome.Done? {
      var c1 := r1.outcome.ctx;
      GateTaken(env, r1.h, c1, Evaluate(env.findings(c.message), Operate));
      var g := InterpretStep(env, APPROVAL_GATE, r1.h, c1);
      assert Interpret(env, [APPROVAL_GATE], r1.h, c1) == g;
      assert Interpret(env, steps, h, c) == g;
    }
  }

  /** In the built-in security Loop, for every message and whatever the outside world answers, the
      operation and verify steps run only after a resume approved the run; a dangerous message
      never gets as far as asking. */
  lemma {:induction false} SecurityLoopNeedsApproval(env: Env, id: string, message: string)
    ensures var r := RunProgram(env, CompileSequence(SECURITY_LOOP, id), [], Context(message, map[], ""));
            && (Dangerous(env.findings(message)) ==> r == Run([Ran("security")], Failed))
            && (Ran("operation") in r.h || Ran("verify") in r.h ==>
                  |r.h| >= 4
                  && r.h[..4] == [Ran("security"), Asked("approval"), Approved("approval"), Ran("operation")])
  {
    var c := Context(message, map[], "");
    CompileCorrect(env, SECURITY_LOOP, id, [], c);
    var front := GateRuns(env, c);
    if front.outcome.Done? {
      OperationIsFirst(env, front.h, front.outcome.ctx);
    }
  }

  /** The loop up to the gate: it ends there, or it goes on after an approval. */
  lemma GateRuns(env: Env, c: Context) returns (front: Run)
    ensures Dangerous(env.findings(c.message)) ==> front == Run([Ran("security")], Failed)
    ensures Ran("operation") !in front.h && Ran("verify") !in front.h
    ensures front.outcome.Done? ==> front.h == [Ran("security"), Asked("approval"), Approved("approval")]
    ensures Interpret(env, SECURITY_LOOP, [], c) ==
            if front.outcome.Done? then Interpret(env, [OPERATION, VERIFY], front.h, front.outcome.ctx) else front
  {
    assert SECURITY_LOOP == [SECURITY, APPROVAL_GATE] + [OPERATION, VERIFY];
    InterpretAppend(env, [SECURITY, APPROVAL_GATE], [OPERATION, VERIFY], [], c);
    SecurityThenGate(env, [], c);
    assert [] + [Ran("security")] == [Ran("security")];
    front := Interpret(env, [SECURITY, APPROVAL_GATE], [], c);
  }

  lemma OperationIsFirst(env: Env, h: History, c: Context)
    ensures h + [Ran("operation")] <= Interpret(env, [OPERATION, VERIFY], h, c).h
  {
    var steps := [OPERATION, VERIFY];
    assert steps[0] == OPERATION;
    var op := InterpretStep(env, OPERATION, h, c);
    assert op == RunLeaf(env, OPERATION, h, c);
    assert op.h == h + [Ran("operation")];
    if op.outcome.Done? {
      HistoryGrows(env, steps[1..], op.h, op.outcome.ctx);
    }
  }
}
