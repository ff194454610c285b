/**
  The combinator program built by compileSequence computes exactly what the direct interpreter
  of the step tree computes: same context, same outcome, same events in the same order.
 */
module WorkflowCorrectness {
  import opened WorkflowModel
  import opened WorkflowCompiler

  /** Appending nodes runs them on what the first ones yield. */
  lemma {:induction false} RunNodesAppend(env: Env, xs: seq<Node>, ys: seq<Node>, h: History, f: Flow)
    ensures var r := RunNodes(env, xs, h, f);
            RunNodes(env, xs + ys, h, f) ==
            if r.outcome.Yield? then RunNodes(env, ys, r.h, r.outcome.flow) else r
    decreases |xs|
  {
    if xs == [] {
      assert xs + ys == ys;
    } else {
      assert (xs + ys)[0] == xs[0] && (xs + ys)[1..] == xs[1..] + ys;
      var r := RunNode(env, xs[0], h, f);
      if r.outcome.Yield? {
        RunNodesAppend(env, xs[1..], ys, r.h, r.outcome.flow);
      }
    }
  }

  /** The compiled program computes the same run, event for event, as the interpreter. */
  lemma {:induction false} CompileCorrect(env: Env, steps: seq<Step>, id: string, h: History, c: Context)
    ensures RunProgram(env, CompileSequence(steps, id), h, c) == Interpret(env, steps, h, c)
    decreases steps, 1
  {
    StepsCorrect(env, steps, id, h, c);
  }

  lemma {:induction false} StepsCorrect(env: Env, steps: seq<Step>, id: string, h: History, c: Context)
    ensures RunNodes(env, CompileSteps(steps, id), h, One(c)) == AsFlow(Interpret(env, steps, h, c))
    decreases steps, 0
  {
    if steps != [] {
      StepCorrect(env, steps[0], id, h, c);
      RunNodesAppend(env, CompileStep(steps[0], id), CompileSteps(steps[1..], id), h, One(c));
      var r := InterpretStep(env, steps[0], h, c);
      if r.outcome.Done? {
        StepsCorrect(env, steps[1..], id, r.h, r.outcome.ctx);
      }
    }
  }

  lemma RunThree(env: Env, a: Node, b: Node, n: Node, h: History, f: Flow)
    ensures RunNodes(env, [a, b, n], h, f) ==
      var x := RunNode(env, a, h, f);
      if !x.outcome.Yield? then x else
      var y := RunNode(env, b, x.h, x.outcome.flow);
      if !y.outcome.Yield? then y else RunNode(env, n, y.h, y.outcome.flow)
  {
    assert [a, b, n][1..] == [b, n] && [b, n][1..] == [n] && [n][1..] == [];
    var x := RunNode(env, a, h, f);
    if x.outcome.Yield? {
      assert RunNodes(env, [a, b, n], h, f) == RunNodes(env, [b, n], x.h, x.outcome.flow);
      var y := RunNode(env, b, x.h, x.outcome.flow);
      if y.outcome.Yield? {
        assert RunNodes(env, [b, n], x.h, x.outcome.flow) == RunNodes(env, [n], y.h, y.outcome.flow);
        var z := RunNode(env, n, y.h, y.outcome.flow);
        assert RunNodes(env, [n], y.h, y.outcome.flow) ==
               if z.outcome.Yield? then RunNodes(env, [], z.h, z.outcome.flow) else z;
      }
    }
  }

  lemma {:induction false} StepCorrect(env: Env, s: Step, id: string, h: History, c: Context)
    ensures RunNodes(env, CompileStep(s, id), h, One(c)) == AsFlow(InterpretStep(env, s, h, c))
    decreases s, 0
  {
    if IsCondition(s) {
      ConditionCorrect(env, s, id, h, c);
    } else if IsParallel(s) {
      ParallelCorrect(env, s, id, h, c);
    } else if IsLoop(s) && s.loop.mode == Foreach {
      ForeachCorrect(env, s, id, h, c);
    } else if IsLoop(s) {
      LoopCorrect(env, s, id, h, c);
    } else {
      assert CompileStep(s, id)[1..] == [];
      assert RunNode(env, CompileStep(s, id)[0], h, One(c)) == AsFlow(RunLeaf(env, s, h, c));
    }
  }

  lemma {:induction false} ConditionCorrect(env: Env, s: Step, id: string, h: History, c: Context)
    requires IsCondition(s)
    ensures RunNodes(env, CompileStep(s, id), h, One(c)) == AsFlow(InterpretStep(env, s, h, c))
    decreases s.condition, 2
  {
    var onTrue, onFalse := id + "_" + s.id + "_true", id + "_" + s.id + "_false";
    var arms := [Arm(Guard(s.condition.rule, false), CompileSequence(s.condition.whenTrue, onTrue)),
                 Arm(Guard(s.condition.rule, true), CompileSequence(s.condition.whenFalse, onFalse))];
    var n := Then(Normalize(s.id, BranchMode));
    RunThree(env, Then(Marker(s.id)), Branch(arms), n, h, One(c));
    CompileCorrect(env, s.condition.whenTrue, onTrue, h, c);
    CompileCorrect(env, s.condition.whenFalse, onFalse, h, c);
    ExactlyOneArm(env, s.condition.rule, arms[0].program, arms[1].program, h, c);
    var chosen := if CompareRule(env, c, s.condition.rule) then arms[0].program else arms[1].program;
    GatherOne(chosen.id, RunProgram(env, chosen, h, c));
  }

  /** Two arms guarded by a rule and its negation: exactly one of them runs. */
  lemma ExactlyOneArm(env: Env, rule: Rule, onTrue: Program, onFalse: Program, h: History, c: Context)
    ensures var chosen := if CompareRule(env, c, rule) then onTrue else onFalse;
            var r := RunProgram(env, chosen, h, c);
            RunArms(env, [Arm(Guard(rule, false), onTrue), Arm(Guard(rule, true), onFalse)], h, c)
            == Collected(r.h, [(chosen.id, r.outcome)])
  {
    var arms := [Arm(Guard(rule, false), onTrue), Arm(Guard(rule, true), onFalse)];
    assert arms[1..] == [arms[1]] && arms[1..][1..] == [];
    if CompareRule(env, c, rule) {
      var r := RunProgram(env, onTrue, h, c);
      assert RunArms(env, arms[1..], r.h, c) == RunArms(env, [], r.h, c) == Collected(r.h, []);
    } else {
      var r := RunProgram(env, onFalse, h, c);
      assert RunArms(env, arms, h, c) == RunArms(env, arms[1..], h, c);
      assert RunArms(env, [], r.h, c) == Collected(r.h, []);
    }
  }

  lemma GatherOne(id: string, r: Run)
    ensures var g := Gather(Collected(r.h, [(id, r.outcome)]));
            g == FlowRun(r.h, if r.outcome.Done? then Yield(Keyed([(id, r.outcome.ctx)])) else Stop(r.outcome))
  {
    var os := Outcomes([(id, r.outcome)]);
    assert os == [r.outcome] && os[1..] == [];
    assert FirstStop(os[1..]) == None;
    if r.outcome.Done? {
      assert DoneContexts(os) == [r.outcome.ctx];
      assert Gather(Collected(r.h, [(id, r.outcome)])).outcome.flow.entries == [(id, r.outcome.ctx)];
    }
  }

  lemma {:induction false} ParallelCorrect(env: Env, s: Step, id: string, h: History, c: Context)
    requires IsParallel(s)
    ensures RunNodes(env, CompileStep(s, id), h, One(c)) == AsFlow(InterpretStep(env, s, h, c))
    decreases s.parallel, 2
  {
    var ps := CompileBranches(s.parallel.branches, id + "_" + s.id);
    RunThree(env, Then(Marker(s.id)), ParallelNode(ps), Then(Normalize(s.id, ParallelMode)), h, One(c));
    BranchesCorrect(env, s.parallel.branches, id + "_" + s.id, h, c);
    var all := RunAll(env, ps, h, c);
    GatherContexts(all);
    var direct := InterpretBranches(env, s.parallel.branches, h, c);
    assert direct == Batch(all.h, Outcomes(all.results));
    assert RunNode(env, Then(Marker(s.id)), h, One(c)) == FlowRun(h, Yield(One(c)));
    var gathered := RunNode(env, ParallelNode(ps), h, One(c));
    assert gathered == Gather(all);
    if gathered.outcome.Yield? {
      Normalized(env, s.id, ParallelMode, gathered.h, gathered.outcome.flow);
    }
    assert InterpretStep(env, s, h, c).h == direct.h;
  }

  lemma {:induction false} BranchesCorrect(env: Env, branches: seq<BranchDef>, id: string, h: History, c: Context)
    ensures var all := RunAll(env, CompileBranches(branches, id), h, c);
            Batch(all.h, Outcomes(all.results)) == InterpretBranches(env, branches, h, c)
    decreases branches, 0
  {
    if branches != [] {
      var ps := CompileBranches(branches, id);
      assert ps[1..] == CompileBranches(branches[1..], id);
      CompileCorrect(env, branches[0].steps, id + "_" + branches[0].id, h, c);
      var r := Interpret(env, branches[0].steps, h, c);
      BranchesCorrect(env, branches[1..], id, r.h, c);
      var rest := RunAll(env, ps[1..], r.h, c);
      assert Outcomes(RunAll(env, ps, h, c).results) == [r.outcome] + Outcomes(rest.results);
    }
  }

  /** Gathering yields the contexts of the outcomes, in order. */
  lemma GatherContexts(all: Collected)
    ensures var g := Gather(all);
            var outcomes := Outcomes(all.results);
            g.h == all.h
            && (FirstStop(outcomes).Some? ==> g.outcome == Stop(FirstStop(outcomes).value))
            && (FirstStop(outcomes).None? ==> g.outcome.Yield? && Contexts(g.outcome.flow) == DoneContexts(outcomes))
  {
    var outcomes := Outcomes(all.results);
    if FirstStop(outcomes).None? {
      assert Contexts(Gather(all).outcome.flow) == DoneContexts(outcomes);
    }
  }

  lemma Normalized(env: Env, id: string, mode: ControlMode, h: History, f: Flow)
    requires mode == ParallelMode || mode == ForeachMode
    ensures RunNode(env, Then(Normalize(id, mode)), h, f) == FlowRun(h, Yield(One(MergeContexts(Contexts(f)))))
  {}

  lemma {:induction false} ForeachCorrect(env: Env, s: Step, id: string, h: History, c: Context)
    requires IsLoop(s) && s.loop.mode == Foreach
    ensures RunNodes(env, CompileStep(s, id), h, One(c)) == AsFlow(InterpretStep(env, s, h, c))
    decreases s.loop, 2
  {
    var bodyId := id + "_" + s.id + "_body";
    var body := CompileSequence(s.loop.steps, bodyId);
    var marker, take, normal := Then(Marker(s.id)), Then(TakeItems(s)), Then(Normalize(s.id, ForeachMode));
    assert CompileStep(s, id) == [marker, take, ForeachNode(body), normal] ==
           [marker] + [take, ForeachNode(body), normal];
    RunNodesAppend(env, [marker], [take, ForeachNode(body), normal], h, One(c));
    RunMarker(env, s.id, h, c);
    RunThree(env, take, ForeachNode(body), normal, h, One(c));
    ForeachTail(env, s, bodyId, h, c);
  }

  lemma RunMarker(env: Env, id: string, h: History, c: Context)
    ensures RunNodes(env, [Then(Marker(id))], h, One(c)) == FlowRun(h, Yield(One(c)))
  {
    assert [Then(Marker(id))][1..] == [];
    assert RunNode(env, Then(Marker(id)), h, One(c)) == FlowRun(h, Yield(One(c)));
  }

  lemma TakesItems(env: Env, s: Step, h: History, c: Context)
    requires IsLoop(s)
    ensures var items := ForeachItems(env, s, c);
            RunNode(env, Then(TakeItems(s)), h, One(c)) ==
            if items.Some? then FlowRun(h + [Items(s.id, |items.value|)], Yield(Many(items.value)))
            else FlowRun(h, Stop(Failed))
  {}

  lemma RunsEach(env: Env, body: Program, h: History, items: seq<Context>)
    ensures RunNode(env, ForeachNode(body), h, Many(items)) == RunEach(env, body, h, items, [])
  {}

  /** Running the body on each item and merging is what the interpreter does. */
  lemma {:induction false} EachThenMerge(env: Env, s: Step, bodyId: string, h: History, items: seq<Context>)
    requires IsLoop(s)
    ensures var all := InterpretItems(env, s.loop.steps, h, items);
            var stop := FirstStop(all.outcomes);
            var each := RunNode(env, ForeachNode(CompileSequence(s.loop.steps, bodyId)), h, Many(items));
            AsFlow(Run(all.h, if stop.Some? then stop.value else Done(MergeContexts(DoneContexts(all.outcomes))))) ==
            if !each.outcome.Yield? then each
            else RunNode(env, Then(Normalize(s.id, ForeachMode)), each.h, each.outcome.flow)
    decreases s.loop, 0
  {
    var body := CompileSequence(s.loop.steps, bodyId);
    EachCorrect(env, s.loop.steps, bodyId, h, items, []);
    RunsEach(env, body, h, items);
    var all := InterpretItems(env, s.loop.steps, h, items);
    assert [] + DoneContexts(all.outcomes) == DoneContexts(all.outcomes);
    var each := RunNode(env, ForeachNode(body), h, Many(items));
    if each.outcome.Yield? {
      Normalized(env, s.id, ForeachMode, each.h, each.outcome.flow);
    }
  }

  /** Taking the items, running the body on each and merging is what the interpreter does. */
  lemma {:induction false} ForeachTail(env: Env, s: Step, bodyId: string, h: History, c: Context)
    requires IsLoop(s) && s.loop.mode == Foreach
    ensures var take := RunNode(env, Then(TakeItems(s)), h, One(c));
            var body := CompileSequence(s.loop.steps, bodyId);
            AsFlow(InterpretStep(env, s, h, c)) ==
              if !take.outcome.Yield? then take else
              var each := RunNode(env, ForeachNode(body), take.h, take.outcome.flow);
              if !each.outcome.Yield? then each else
              RunNode(env, Then(Normalize(s.id, ForeachMode)), each.h, each.outcome.flow)
    decreases s.loop, 1
  {
    var items := ForeachItems(env, s, c);
    TakesItems(env, s, h, c);
    if items.Some? {
      EachThenMerge(env, s, bodyId, h + [Items(s.id, |items.value|)], items.value);
    }
  }

  lemma {:induction false} EachCorrect(env: Env, steps: seq<Step>, id: string, h: History, items: seq<Context>,
                                       done: seq<Context>)
    ensures var all := InterpretItems(env, steps, h, items);
            var stop := FirstStop(all.outcomes);
            RunEach(env, CompileSequence(steps, id), h, items, done) ==
            FlowRun(all.h, if stop.Some? then Stop(stop.value) else Yield(Many(done + DoneContexts(all.outcomes))))
    decreases steps, 2, |items|
  {
    if items == [] {
      assert done + DoneContexts([]) == done;
      return;
    }
    var r := Interpret(env, steps, h, items[0]);
    CompileCorrect(env, steps, id, h, items[0]);
    if r.outcome.Done? {
      var rest := InterpretItems(env, steps, r.h, items[1..]);
      EachCorrect(env, steps, id, r.h, items[1..], done + [r.outcome.ctx]);
      OneMoreOutcome(r.outcome, rest.outcomes, done);
    } else {
      assert [r.outcome][1..] == [];
    }
  }

  lemma OneMoreOutcome(first: Outcome, rest: seq<Outcome>, done: seq<Context>)
    requires first.Done?
    ensures FirstStop([first] + rest) == FirstStop(rest)
    ensures done + DoneContexts([first] + rest) == done + [first.ctx] + DoneContexts(rest)
  {
    assert ([first] + rest)[1..] == rest;
  }

  lemma {:induction false} LoopCorrect(env: Env, s: Step, id: string, h: History, c: Context)
    requires IsLoop(s) && s.loop.mode != Foreach
    ensures RunNodes(env, CompileStep(s, id), h, One(c)) == AsFlow(InterpretStep(env, s, h, c))
    decreases s.loop, 2
  {
    var bodyId := id + "_" + s.id + "_body";
    var body := CompileSequence(s.loop.steps, bodyId);
    var max, rule := s.loop.maxIterations, s.loop.rule;
    var node := if s.loop.mode == While then DoWhile(body, max, rule) else DoUntil(body, max, rule);
    RunThree(env, Then(Marker(s.id)), node, Then(Normalize(s.id, LoopBodyMode)), h, One(c));
    TurnsCorrect(env, s.loop, bodyId, h, c, 0);
  }

  /** The counting test of dowhile/dountil against the interpreter's remaining budget. */
  lemma {:induction false} TurnsCorrect(env: Env, l: LoopBlock, id: string, h: History, c: Context, completed: nat)
    requires l.Loop? && l.mode != Foreach
    requires completed == 0 || completed < l.maxIterations
    ensures var body := CompileSequence(l.steps, id);
            var r := InterpretLoop(env, l, h, c, l.maxIterations - completed);
            (l.mode == While ==> RunDoWhile(env, body, l.maxIterations, l.rule, h, c, completed) == r)
            && (l.mode == Until ==> RunDoUntil(env, body, l.maxIterations, l.rule, h, c, completed) == r)
    decreases l.steps, 2, l.maxIterations - completed
  {
    CompileCorrect(env, l.steps, id, h, c);
    var r := Interpret(env, l.steps, h, c);
    if r.outcome.Done? && l.maxIterations - completed > 1 && !Decisive(env, l, r.outcome.ctx) {
      TurnsCorrect(env, l, id, r.h, r.outcome.ctx, completed + 1);
    }
  }
}
