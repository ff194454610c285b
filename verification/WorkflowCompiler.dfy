/**
  compileSequence: a step tree becomes a program over the combinators then, branch, parallel,
  foreach, dowhile and dountil. The combinators are given a semantics of their own, the step tree
  a direct recursive interpreter; WorkflowCorrectness proves that the two agree.
 */
module WorkflowCompiler {
  import opened WorkflowModel

  // ---------------------------------------------------------------- the target language

  datatype ControlMode = BranchMode | ParallelMode | LoopBodyMode | ForeachMode

  datatype Task =
    | Leaf(step: Step) | Marker(stepId: string) | TakeItems(step: Step)
    | Normalize(stepId: string, mode: ControlMode)

  datatype Guard = Guard(rule: Rule, negated: bool)

  datatype Node =
    | Then(task: Task)
    | Branch(arms: seq<Arm>)
    | ParallelNode(programs: seq<Program>)
    | ForeachNode(body: Program)
    | DoWhile(body: Program, maxIterations: nat, rule: Rule)
    | DoUntil(body: Program, maxIterations: nat, rule: Rule)
  datatype Arm = Arm(guard: Guard, program: Program)
  datatype Program = Program(id: string, nodes: seq<Node>)

  /** What flows between nodes: one context, the keyed outputs of branch and parallel, or an array. */
  datatype Flow = One(ctx: Context) | Keyed(entries: seq<(string, Context)>) | Many(items: seq<Context>)

  datatype FlowOutcome = Yield(flow: Flow) | Stop(why: Outcome)

  datatype FlowRun = FlowRun(h: History, outcome: FlowOutcome)

  function Contexts(f: Flow): seq<Context> {
    match f
    case One(c) => [c]
    case Keyed(es) => seq(|es|, i requires 0 <= i < |es| => es[i].1)
    case Many(cs) => cs
  }

  function RunTask(env: Env, t: Task, h: History, f: Flow): FlowRun {
    match t
    case Leaf(s) =>
      if !f.One? then FlowRun(h, Stop(Failed))
      else
        var r := RunLeaf(env, s, h, f.ctx);
        FlowRun(r.h, if r.outcome.Done? then Yield(One(r.outcome.ctx)) else Stop(r.outcome))
    case Marker(_) =>
      FlowRun(h, if f.One? then Yield(f) else Stop(Failed))
    case TakeItems(s) =>
      if !f.One? || !s.loop.Loop? then FlowRun(h, Stop(Failed))
      else
        var items := ForeachItems(env, s, f.ctx);
        if items.None? then FlowRun(h, Stop(Failed))
        else FlowRun(h + [Items(s.id, |items.value|)], Yield(Many(items.value)))
    case Normalize(_, mode) =>
      // asContext takes the first context found, mergeContexts all of them in order
      var cs := Contexts(f);
      if mode == ParallelMode || mode == ForeachMode then FlowRun(h, Yield(One(MergeContexts(cs))))
      else if cs == [] then FlowRun(h, Stop(Failed))
      else FlowRun(h, Yield(One(cs[0])))
  }

  predicate Holds(env: Env, g: Guard, c: Context) {
    CompareRule(env, c, g.rule) != g.negated
  }

  /** A program runs its nodes in order until one stops. */
  function RunNodes(env: Env, nodes: seq<Node>, h: History, f: Flow): FlowRun
    decreases nodes, 0
  {
    if nodes == [] then FlowRun(h, Yield(f))
    else
      var r := RunNode(env, nodes[0], h, f);
      if r.outcome.Yield? then RunNodes(env, nodes[1..], r.h, r.outcome.flow) else r
  }

  function RunProgram(env: Env, p: Program, h: History, c: Context): Run
    decreases p, 0
  {
    var r := RunNodes(env, p.nodes, h, One(c));
    match r.outcome
    case Stop(why) => Run(r.h, why)
    case Yield(f) => Run(r.h, if f.One? then Done(f.ctx) else Failed)
  }

  function RunNode(env: Env, n: Node, h: History, f: Flow): FlowRun
    decreases n, 0
  {
    match n
    case Then(t) => RunTask(env, t, h, f)
    case Branch(arms) =>
      if !f.One? then FlowRun(h, Stop(Failed)) else Gather(RunArms(env, arms, h, f.ctx))
    case ParallelNode(ps) =>
      if !f.One? then FlowRun(h, Stop(Failed)) else Gather(RunAll(env, ps, h, f.ctx))
    case ForeachNode(body) =>
      if !f.Many? then FlowRun(h, Stop(Failed)) else RunEach(env, body, h, f.items, [])
    case DoWhile(body, max, rule) =>
      if !f.One? then FlowRun(h, Stop(Failed)) else AsFlow(RunDoWhile(env, body, max, rule, h, f.ctx, 0))
    case DoUntil(body, max, rule) =>
      if !f.One? then FlowRun(h, Stop(Failed)) else AsFlow(RunDoUntil(env, body, max, rule, h, f.ctx, 0))
  }

  function AsFlow(r: Run): FlowRun {
    FlowRun(r.h, if r.outcome.Done? then Yield(One(r.outcome.ctx)) else Stop(r.outcome))
  }

  /** The outputs of sub-programs that all ran, in order, keyed by program id. */
  datatype Collected = Collected(h: History, results: seq<(string, Outcome)>)

  /** Every arm whose guard holds runs; the others do not. */
  function RunArms(env: Env, arms: seq<Arm>, h: History, c: Context): Collected
    decreases arms, 0
  {
    if arms == [] then Collected(h, [])
    else if Holds(env, arms[0].guard, c) then
      assert arms[0] in arms && arms[0].program < arms[0];
      var r := RunProgram(env, arms[0].program, h, c);
      var rest := RunArms(env, arms[1..], r.h, c);
      Collected(rest.h, [(arms[0].program.id, r.outcome)] + rest.results)
    else RunArms(env, arms[1..], h, c)
  }

  function RunAll(env: Env, ps: seq<Program>, h: History, c: Context): Collected
    decreases ps, 0
  {
    if ps == [] then Collected(h, [])
    else
      var r := RunProgram(env, ps[0], h, c);
      var rest := RunAll(env, ps[1..], r.h, c);
      Collected(rest.h, [(ps[0].id, r.outcome)] + rest.results)
  }

  /** All outcomes must be done; a failure outranks a suspension, and the first one is reported. */
  function FirstStop(outcomes: seq<Outcome>): (stop: Option<Outcome>)
    ensures stop.Some? ==> !stop.value.Done?
  {
    if outcomes == [] then None
    else
      var rest := FirstStop(outcomes[1..]);
      if outcomes[0].Failed? then Some(Failed)
      else if outcomes[0].Suspended? then (if rest == Some(Failed) then rest else Some(outcomes[0]))
      else rest
  }

  function Outcomes(results: seq<(string, Outcome)>): seq<Outcome> {
    seq(|results|, i requires 0 <= i < |results| => results[i].1)
  }

  function DoneContexts(outcomes: seq<Outcome>): seq<Context> {
    seq(|outcomes|, i requires 0 <= i < |outcomes| =>
      if outcomes[i].Done? then outcomes[i].ctx else EMPTY_CONTEXT)
  }

  function Gather(c: Collected): FlowRun {
    var stop := FirstStop(Outcomes(c.results));
    if stop.Some? then FlowRun(c.h, Stop(stop.value))
    else
      var cs := DoneContexts(Outcomes(c.results));
      FlowRun(c.h, Yield(Keyed(seq(|cs|, i requires 0 <= i < |cs| => (c.results[i].0, cs[i])))))
  }

  /** foreach: items one after the other, stopping at the first that does not finish. */
  function RunEach(env: Env, body: Program, h: History, items: seq<Context>, done: seq<Context>): FlowRun
    decreases body, 1, |items|
  {
    if items == [] then FlowRun(h, Yield(Many(done)))
    else
      var r := RunProgram(env, body, h, items[0]);
      if r.outcome.Done? then RunEach(env, body, r.h, items[1..], done + [r.outcome.ctx])
      else FlowRun(r.h, Stop(r.outcome))
  }

  /** dowhile: the body first, then the test on the number of completed body runs. */
  function RunDoWhile(env: Env, body: Program, max: nat, rule: Rule, h: History, c: Context, completed: nat): Run
    decreases body, 1, max - completed
  {
    var r := RunProgram(env, body, h, c);
    if r.outcome.Done? && completed + 1 < max && CompareRule(env, r.outcome.ctx, rule) then
      RunDoWhile(env, body, max, rule, r.h, r.outcome.ctx, completed + 1)
    else r
  }

  function RunDoUntil(env: Env, body: Program, max: nat, rule: Rule, h: History, c: Context, completed: nat): Run
    decreases body, 1, max - completed
  {
    var r := RunProgram(env, body, h, c);
    if r.outcome.Done? && !(completed + 1 >= max || CompareRule(env, r.outcome.ctx, rule)) then
      RunDoUntil(env, body, max, rule, r.h, r.outcome.ctx, completed + 1)
    else r
  }

  // ---------------------------------------------------------------- the compiler

  function CompileSequence(steps: seq<Step>, id: string): Program
    decreases steps, 1
  {
    Program(id, CompileSteps(steps, id))
  }

  function CompileSteps(steps: seq<Step>, id: string): seq<Node>
    decreases steps, 0
  {
    if steps == [] then [] else CompileStep(steps[0], id) + CompileSteps(steps[1..], id)
  }

  function CompileStep(s: Step, id: string): seq<Node>
    decreases s, 0
  {
    if IsCondition(s) then
      [Then(Marker(s.id)),
       Branch([Arm(Guard(s.condition.rule, false), CompileSequence(s.condition.whenTrue, id + "_" + s.id + "_true")),
               Arm(Guard(s.condition.rule, true), CompileSequence(s.condition.whenFalse, id + "_" + s.id + "_false"))]),
       Then(Normalize(s.id, BranchMode))]
    else if IsParallel(s) then
      [Then(Marker(s.id)),
       ParallelNode(CompileBranches(s.parallel.branches, id + "_" + s.id)),
       Then(Normalize(s.id, ParallelMode))]
    else if IsLoop(s) then
      var body := CompileSequence(s.loop.steps, id + "_" + s.id + "_body");
      if s.loop.mode == Foreach then
        [Then(Marker(s.id)), Then(TakeItems(s)), ForeachNode(body), Then(Normalize(s.id, ForeachMode))]
      else if s.loop.mode == While then
        [Then(Marker(s.id)), DoWhile(body, s.loop.maxIterations, s.loop.rule), Then(Normalize(s.id, LoopBodyMode))]
      else
        [Then(Marker(s.id)), DoUntil(body, s.loop.maxIterations, s.loop.rule), Then(Normalize(s.id, LoopBodyMode))]
    else [Then(Leaf(s))]
  }

  function CompileBranches(branches: seq<BranchDef>, id: string): seq<Program>
    decreases branches, 0
  {
    if branches == [] then []
    else [CompileSequence(branches[0].steps, id + "_" + branches[0].id)] + CompileBranches(branches[1..], id)
  }

  // ---------------------------------------------------------------- the compiler's loop

  /** compileSequence as it runs: the program grows node by node over the definitions. */
  method BuildSequence(definitions: seq<Step>, id: string) returns (workflow: Program)
    ensures workflow == CompileSequence(definitions, id)
    decreases definitions, 1
  {
    var nodes: seq<Node> := [];
    for i := 0 to |definitions|
      invariant nodes + CompileSteps(definitions[i..], id) == CompileSteps(definitions, id)
    {
      var added := BuildStep(definitions[i], id);
      NextNodes(nodes, definitions, i, id);
      nodes := nodes + added;
    }
    assert nodes + [] == nodes;
    workflow := Program(id, nodes);
  }

  lemma NextNodes(nodes: seq<Node>, definitions: seq<Step>, i: nat, id: string)
    requires i < |definitions|
    ensures nodes + CompileSteps(definitions[i..], id)
         == nodes + CompileStep(definitions[i], id) + CompileSteps(definitions[i + 1..], id)
  {
    var rest := definitions[i..];
    assert rest[0] == definitions[i] && rest[1..] == definitions[i + 1..];
    assert nodes + (CompileStep(rest[0], id) + CompileSteps(rest[1..], id))
        == nodes + CompileStep(rest[0], id) + CompileSteps(rest[1..], id);
  }

  /** One turn of that loop: the nodes a definition adds. */
  method BuildStep(step: Step, id: string) returns (added: seq<Node>)
    ensures added == CompileStep(step, id)
    decreases step, 0
  {
    var inner := id + "_" + step.id;
    if step.kind == ConditionKind && step.condition.Condition? {
      var whenTrue := BuildSequence(step.condition.whenTrue, inner + "_true");
      var whenFalse := BuildSequence(step.condition.whenFalse, inner + "_false");
      return [Then(Marker(step.id)),
              Branch([Arm(Guard(step.condition.rule, false), whenTrue),
                      Arm(Guard(step.condition.rule, true), whenFalse)]),
              Then(Normalize(step.id, BranchMode))];
    }
    if step.kind == ParallelKind && step.parallel.Parallel? {
      var branches := BuildBranches(step.parallel.branches, inner);
      return [Then(Marker(step.id)), ParallelNode(branches), Then(Normalize(step.id, ParallelMode))];
    }
    if step.kind == LoopKind && step.loop.Loop? {
      var body := BuildSequence(step.loop.steps, inner + "_body");
      added := [Then(Marker(step.id))];
      if step.loop.mode == Foreach {
        return added + [Then(TakeItems(step)), ForeachNode(body), Then(Normalize(step.id, ForeachMode))];
      }
      if step.loop.mode == While {
        added := added + [DoWhile(body, step.loop.maxIterations, step.loop.rule)];
      } else {
        added := added + [DoUntil(body, step.loop.maxIterations, step.loop.rule)];
      }
      return added + [Then(Normalize(step.id, LoopBodyMode))];
    }
    added := [Then(Leaf(step))];
  }

  method BuildBranches(branches: seq<BranchDef>, id: string) returns (programs: seq<Program>)
    ensures programs == CompileBranches(branches, id)
    decreases branches, 0
  {
    programs := [];
    for i := 0 to |branches|
      invariant programs + CompileBranches(branches[i..], id) == CompileBranches(branches, id)
    {
      var program := BuildSequence(branches[i].steps, id + "_" + branches[i].id);
      assert branches[i..][1..] == branches[i + 1..];
      assert programs + ([program] + CompileBranches(branches[i + 1..], id))
          == (programs + [program]) + CompileBranches(branches[i + 1..], id);
      programs := programs + [program];
    }
    assert programs + [] == programs;
  }

  // ---------------------------------------------------------------- the direct interpreter

  function Interpret(env: Env, steps: seq<Step>, h: History, c: Context): Run
    decreases steps, 0
  {
    if steps == [] then Run(h, Done(c))
    else
      var r := InterpretStep(env, steps[0], h, c);
      if r.outcome.Done? then Interpret(env, steps[1..], r.h, r.outcome.ctx) else r
  }

  function InterpretStep(env: Env, s: Step, h: History, c: Context): Run
    decreases s, 0
  {
    if IsCondition(s) then
      if CompareRule(env, c, s.condition.rule) then Interpret(env, s.condition.whenTrue, h, c)
      else Interpret(env, s.condition.whenFalse, h, c)
    else if IsParallel(s) then
      var all := InterpretBranches(env, s.parallel.branches, h, c);
      var stop := FirstStop(all.outcomes);
      Run(all.h, if stop.Some? then stop.value else Done(MergeContexts(DoneContexts(all.outcomes))))
    else if IsLoop(s) then
      if s.loop.mode == Foreach then
        var items := ForeachItems(env, s, c);
        if items.None? then Run(h, Failed)
        else
          var all := InterpretItems(env, s.loop.steps, h + [Items(s.id, |items.value|)], items.value);
          var stop := FirstStop(all.outcomes);
          Run(all.h, if stop.Some? then stop.value else Done(MergeContexts(DoneContexts(all.outcomes))))
      else InterpretLoop(env, s.loop, h, c, s.loop.maxIterations)
    else RunLeaf(env, s, h, c)
  }

  datatype Batch = Batch(h: History, outcomes: seq<Outcome>)

  function InterpretBranches(env: Env, branches: seq<BranchDef>, h: History, c: Context): Batch
    decreases branches, 0
  {
    if branches == [] then Batch(h, [])
    else
      var r := Interpret(env, branches[0].steps, h, c);
      var rest := InterpretBranches(env, branches[1..], r.h, c);
      Batch(rest.h, [r.outcome] + rest.outcomes)
  }

  function InterpretItems(env: Env, body: seq<Step>, h: History, items: seq<Context>): Batch
    decreases body, 1, |items|
  {
    if items == [] then Batch(h, [])
    else
      var r := Interpret(env, body, h, items[0]);
      if !r.outcome.Done? then Batch(r.h, [r.outcome])
      else
        var rest := InterpretItems(env, body, r.h, items[1..]);
        Batch(rest.h, [r.outcome] + rest.outcomes)
  }

  /** The rule value that ends a loop: false for while, true for until. */
  predicate Decisive(env: Env, l: LoopBlock, c: Context)
    requires l.Loop?
  {
    CompareRule(env, c, l.rule) == (l.mode == Until)
  }

  function InterpretLoop(env: Env, l: LoopBlock, h: History, c: Context, budget: nat): Run
    requires l.Loop? && l.mode != Foreach
    decreases l.steps, 1, budget
  {
    var r := Interpret(env, l.steps, h, c);
    if r.outcome.Done? && budget > 1 && !Decisive(env, l, r.outcome.ctx) then
      InterpretLoop(env, l, r.h, r.outcome.ctx, budget - 1)
    else r
  }
}
