/**
  Parallel nodes whose keys are already there, as from the second turn of a loop on: the branches carry old
  copies of each other's results, and the merge lets the last branch win (compiler.ts, mergeContexts).
 */
module WorkflowStale {
  import opened WorkflowModel
  import opened WorkflowCompiler
  import opened WorkflowCorrectness
  import opened WorkflowProperties
  import opened WorkflowParallel
  import opened WorkflowApproval
  import opened WorkflowAdds

  /** The contexts the branches of a parallel step end with, in order. */
  function OutputsOf(env: Env, s: Step, h: History, c: Context): seq<Context>
    requires IsParallel(s)
  {
    DoneContexts(InterpretBranches(env, s.parallel.branches, h, c).outcomes)
  }

  /** A parallel step with unique ids that finishes. */
  ghost predicate Ends(env: Env, s: Step, h: History, c: Context) {
    && IsParallel(s) && Unique(BranchIds(s.parallel.branches)) && AllPlain(BranchIds(s.parallel.branches))
    && InterpretStep(env, s, h, c).outcome.Done?
  }

  /** Each output adds to the incoming context only results of its own branch. */
  ghost predicate Splits(c: Context, branches: seq<BranchDef>, outputs: seq<Context>) {
    && |outputs| == |branches|
    && (forall i: nat :: i < |branches| ==> Adds(c, outputs[i], Writes(branches[i].steps)))
    && (forall i: nat, j: nat :: i < |branches| && j < |branches| && i != j ==>
          Writes(branches[i].steps) !! Writes(branches[j].steps))
  }

  lemma {:induction false} OutputsSplit(env: Env, s: Step, h: History, c: Context)
    requires Ends(env, s, h, c)
    ensures Splits(c, s.parallel.branches, OutputsOf(env, s, h, c))
    ensures InterpretStep(env, s, h, c).outcome.ctx.results == AssignAll(OutputsOf(env, s, h, c))
  {
    var branches := s.parallel.branches;
    var outcomes := InterpretBranches(env, branches, h, c).outcomes;
    NoStopMeansDone(outcomes);
    BranchesAdd(env, branches, h, c);
    OutcomesSplit(c, branches, outcomes);
  }

  lemma OutcomesSplit(c: Context, branches: seq<BranchDef>, outcomes: seq<Outcome>)
    requires Unique(BranchIds(branches)) && AllPlain(BranchIds(branches))
    requires |outcomes| == |branches| && forall i: nat :: i < |branches| ==> BranchAdds(c, branches, outcomes, i)
    ensures Splits(c, branches, DoneContexts(outcomes))
  {
    forall i: nat | i < |branches| ensures Adds(c, DoneContexts(outcomes)[i], Writes(branches[i].steps)) {
      assert BranchAdds(c, branches, outcomes, i);
    }
    AllApart(branches);
  }

  lemma AllApart(branches: seq<BranchDef>)
    requires Unique(BranchIds(branches)) && AllPlain(BranchIds(branches))
    ensures forall i: nat, j: nat :: i < |branches| && j < |branches| && i != j ==>
              Writes(branches[i].steps) !! Writes(branches[j].steps)
  {
    forall i: nat, j: nat | i < |branches| && j < |branches| && i != j
      ensures Writes(branches[i].steps) !! Writes(branches[j].steps)
    {
      if i < j {
        BranchesApart(branches, i, j);
      } else {
        BranchesApart(branches, j, i);
      }
    }
  }

  /** A key that branch i writes has in every other branch the value it had before, if it is there. */
  lemma Elsewhere(c: Context, branches: seq<BranchDef>, outputs: seq<Context>, i: nat, j: nat, k: string)
    requires Splits(c, branches, outputs) && i < |branches| && j < |branches| && i != j
    requires k in Writes(branches[i].steps) && k in outputs[j].results
    ensures OldAt(c, outputs[j], k)
  {}

  /** Some later branch still holds the key. */
  ghost predicate HeldLater(outputs: seq<Context>, i: nat, k: string) {
    exists j: nat :: i < j < |outputs| && k in outputs[j].results
  }

  lemma {:induction false} MergedKey(c: Context, branches: seq<BranchDef>, outputs: seq<Context>, i: nat, k: string)
    requires Splits(c, branches, outputs) && i < |branches|
    requires k in Writes(branches[i].steps) && k in outputs[i].results
    ensures k in AssignAll(outputs) && (HeldLater(outputs, i, k) ==> k in c.results)
    ensures AssignAll(outputs)[k] == if HeldLater(outputs, i, k) then c.results[k] else outputs[i].results[k]
  {
    if HeldLater(outputs, i, k) {
      var j: nat :| i < j < |outputs| && k in outputs[j].results;
      Elsewhere(c, branches, outputs, i, j, k);
      HolderInMerge(outputs, j, k);
      var last := LastHolder(outputs, k);
      assert last >= j;
      Elsewhere(c, branches, outputs, i, last, k);
      AssignLast(outputs, last, k);
    } else {
      AssignLast(outputs, i, k);
    }
  }

  lemma {:induction false} HolderInMerge(cs: seq<Context>, i: nat, k: string)
    requires i < |cs| && k in cs[i].results
    ensures k in AssignAll(cs)
    decreases |cs|
  {
    var n := |cs| - 1;
    if i < n {
      HolderInMerge(cs[..n], i, k);
    }
  }

  /** Exactly when a branch's result survives the merge: no later branch still holds the key, or its old value, which
      that branch holds, is the same. */
  lemma {:induction false} BranchResultSurvivesIff(env: Env, s: Step, h: History, c: Context, i: nat, k: string)
    requires Ends(env, s, h, c) && i < |s.parallel.branches| == |OutputsOf(env, s, h, c)|
    requires k in Writes(s.parallel.branches[i].steps) && k in OutputsOf(env, s, h, c)[i].results
    ensures var outputs, merged := OutputsOf(env, s, h, c), InterpretStep(env, s, h, c).outcome.ctx.results;
            && k in merged && (HeldLater(outputs, i, k) ==> k in c.results)
            && (merged[k] == outputs[i].results[k] <==>
                HeldLater(outputs, i, k) ==> c.results[k] == outputs[i].results[k])
  {
    OutputsSplit(env, s, h, c);
    MergedKey(c, s.parallel.branches, OutputsOf(env, s, h, c), i, k);
  }

  /** Where no foreach array was empty every later branch holds what was there before. */
  lemma {:induction false} LaterHoldsOld(env: Env, s: Step, h: History, c: Context, i: nat, k: string)
    requires Ends(env, s, h, c) && StepHasBranches(s) && NoEmptyForeach(InterpretStep(env, s, h, c).h)
    requires i < |s.parallel.branches| == |OutputsOf(env, s, h, c)| && k in Writes(s.parallel.branches[i].steps)
    ensures HeldLater(OutputsOf(env, s, h, c), i, k) <==> i < |OutputsOf(env, s, h, c)| - 1 && k in c.results
  {
    var branches, outputs := s.parallel.branches, OutputsOf(env, s, h, c);
    OutputsSplit(env, s, h, c);
    NoStopMeansDone(InterpretBranches(env, branches, h, c).outcomes);
    BranchesPreserve(env, branches, h, c);
    var n := |outputs| - 1;
    if HeldLater(outputs, i, k) {
      var j: nat :| i < j < |outputs| && k in outputs[j].results;
      Elsewhere(c, branches, outputs, i, j, k);
    } else if i < n {
      assert k !in Writes(branches[n].steps);
      assert SameAt(c, outputs[n], k);
    }
  }

  /** Then a branch's result survives exactly if its branch is the last one, or the key is new, or its old value is
      the same. */
  lemma {:induction false} ParallelKeepsFreshIff(env: Env, s: Step, h: History, c: Context, i: nat, k: string)
    requires Ends(env, s, h, c) && StepHasBranches(s) && NoEmptyForeach(InterpretStep(env, s, h, c).h)
    requires i < |s.parallel.branches| == |OutputsOf(env, s, h, c)|
    requires k in Writes(s.parallel.branches[i].steps) && k in OutputsOf(env, s, h, c)[i].results
    ensures var outputs, merged := OutputsOf(env, s, h, c), InterpretStep(env, s, h, c).outcome.ctx.results;
            && k in merged
            && (merged[k] == outputs[i].results[k] <==>
                i == |outputs| - 1 || k !in c.results || c.results[k] == outputs[i].results[k])
  {
    LaterHoldsOld(env, s, h, c, i, k);
    BranchResultSurvivesIff(env, s, h, c, i, k);
  }

  // ---------------------------------------------------------------- when the order of branches matters

  /** The list with element i moved to the end. */
  function MovedLast(cs: seq<Context>, i: nat): (ds: seq<Context>)
    requires i < |cs|
    ensures ds != [] && ds[|ds| - 1] == cs[i]
  {
    cs[..i] + cs[i + 1..] + [cs[i]]
  }

  lemma MovedIsShuffled(cs: seq<Context>, i: nat)
    requires i < |cs|
    ensures Shuffles(MovedLast(cs, i), cs)
  {
    assert cs == cs[..i] + [cs[i]] + cs[i + 1..];
  }

  predicate Shuffles(ds: seq<Context>, cs: seq<Context>) {
    multiset(ds) == multiset(cs)
  }

  ghost predicate OrderFree(cs: seq<Context>) {
    forall ds: seq<Context> :: Shuffles(ds, cs) ==> AssignAll(ds) == AssignAll(cs)
  }

  /** Two contexts hold different values for a key, so the one that is merged last decides. */
  lemma OrderMatters(cs: seq<Context>, i: nat, j: nat)
    requires i < |cs| && j < |cs| && !Agree(cs[i], cs[j])
    ensures !OrderFree(cs)
  {
    var k :| k in cs[i].results && k in cs[j].results && cs[i].results[k] != cs[j].results[k];
    var x, y := MovedLast(cs, i), MovedLast(cs, j);
    MovedIsShuffled(cs, i);
    MovedIsShuffled(cs, j);
    AssignLast(x, |x| - 1, k);
    AssignLast(y, |y| - 1, k);
    assert AssignAll(x) != AssignAll(y);
  }

  /** Exactly when the order in which contexts are merged does not matter: no two hold different values for a key. */
  lemma {:induction false} OrderFreeIff(cs: seq<Context>)
    ensures OrderFree(cs) <==> AllAgree(cs)
  {
    if AllAgree(cs) {
      forall ds: seq<Context> | Shuffles(ds, cs) ensures AssignAll(ds) == AssignAll(cs) {
        AssignOrderFree(cs, ds);
      }
    } else {
      var i: nat, j: nat :| i < |cs| && j < |cs| && !Agree(cs[i], cs[j]);
      OrderMatters(cs, i, j);
    }
  }

  /** Branch i changed the value of a key that branch j still holds. */
  ghost predicate Overtakes(c: Context, outputs: seq<Context>, i: nat, j: nat, k: string) {
    && i < |outputs| && j < |outputs| && i != j
    && k in c.results && k in outputs[i].results && k in outputs[j].results
    && c.results[k] != outputs[i].results[k]
  }

  /** Exactly when the order of the branches does not matter: none changed the value of a key that another one still
      holds. */
  lemma {:induction false} ParallelOrderFreeIff(env: Env, s: Step, h: History, c: Context)
    requires Ends(env, s, h, c)
    ensures OrderFree(OutputsOf(env, s, h, c)) <==>
            forall i, j, k :: !Overtakes(c, OutputsOf(env, s, h, c), i, j, k)
  {
    var branches, outputs := s.parallel.branches, OutputsOf(env, s, h, c);
    OutputsSplit(env, s, h, c);
    OrderFreeIff(outputs);
    if AllAgree(outputs) {
      forall i, j, k ensures !Overtakes(c, outputs, i, j, k) {
        if Overtakes(c, outputs, i, j, k) {
          OvertakenDiffers(c, branches, outputs, i, j, k);
          assert false;
        }
      }
    } else {
      var i: nat, j: nat :| i < |outputs| && j < |outputs| && !Agree(outputs[i], outputs[j]);
      DifferingOvertakes(c, branches, outputs, i, j);
    }
  }

  lemma OvertakenDiffers(c: Context, branches: seq<BranchDef>, outputs: seq<Context>, i: nat, j: nat, k: string)
    requires Splits(c, branches, outputs) && Overtakes(c, outputs, i, j, k)
    ensures !Agree(outputs[i], outputs[j])
  {
    assert k in Writes(branches[i].steps) by {
      assert !OldAt(c, outputs[i], k);
    }
    Elsewhere(c, branches, outputs, i, j, k);
  }

  lemma DifferingOvertakes(c: Context, branches: seq<BranchDef>, outputs: seq<Context>, i: nat, j: nat)
    requires Splits(c, branches, outputs) && i < |outputs| && j < |outputs| && !Agree(outputs[i], outputs[j])
    ensures exists a, b, k :: Overtakes(c, outputs, a, b, k)
  {
    var k :| k in outputs[i].results && k in outputs[j].results && outputs[i].results[k] != outputs[j].results[k];
    if k in Writes(branches[i].steps) {
      Elsewhere(c, branches, outputs, i, j, k);
      assert Overtakes(c, outputs, i, j, k);
    } else {
      assert OldAt(c, outputs[i], k);
      assert Overtakes(c, outputs, j, i, k);
    }
  }

  // ---------------------------------------------------------------- a loop that loses results

  /** A tool call with no control block. */
  function ToolStep(id: string): Step {
    Step(id, McpTool, 0, NoCondition, NoParallel, NoLoop)
  }

  const RIGHT := [BranchDef("right", [ToolStep("b")])]
  const BRANCHES := [BranchDef("left", [ToolStep("a")])] + RIGHT

  const BOTH := Step("both", ParallelKind, 0, NoCondition, Parallel(BRANCHES), NoLoop)

  const WHILE_MESSAGE := Loop(While, Rule("message", Exists, None), 2, "", [BOTH])

  /** while the message exists, at most twice: both branches. */
  const TWICE := Step("twice", LoopKind, 0, NoCondition, NoParallel, WHILE_MESSAGE)

  /** Tools answer with the number of events so far. */
  ghost predicate CountsEvents(env: Env) {
    forall h, s, c, attempt :: env.respond(h, s, c, attempt) == Data(Num(|h| as real))
  }

  /** An environment like env in which they do. */
  function Counting(env: Env): (counting: Env)
    ensures CountsEvents(counting)
  {
    env.(respond := (h: History, s: Step, c: Context, attempt: nat) => Data(Num(|h| as real)))
  }

  lemma OneTool(env: Env, id: string, h: History, c: Context)
    requires CountsEvents(env)
    ensures Interpret(env, [ToolStep(id)], h, c) == Run(h + [Ran(id)], Done(WithResult(c, id, Num(|h| as real))))
  {
    var s := ToolStep(id);
    assert Attempt(env, s, h, c, 0) == Some(WithResult(c, id, Num(|h| as real)));
    assert InterpretStep(env, s, h, c) == RunLeaf(env, s, h, c);
    assert [s][1..] == [];
  }

  lemma BothBranches(env: Env, h: History, c: Context)
    requires CountsEvents(env)
    ensures InterpretBranches(env, BRANCHES, h, c) ==
            Batch(h + [Ran("a")] + [Ran("b")],
                  [Done(WithResult(c, "a", Num(|h| as real))), Done(WithResult(c, "b", Num((|h| + 1) as real)))])
  {
    var h1 := h + [Ran("a")];
    OneTool(env, "a", h, c);
    OneTool(env, "b", h1, c);
    assert RIGHT[1..] == [] && BRANCHES[1..] == RIGHT;
    var right := Done(WithResult(c, "b", Num(|h1| as real)));
    assert InterpretBranches(env, RIGHT, h1, c) == Batch(h1 + [Ran("b")], [right] + []);
  }

  lemma MergeTwo(x: Context, y: Context)
    requires x.text == "" && y.text == ""
    ensures MergeContexts([x, y]) == Context(x.message, x.results + y.results, "")
  {
    var cs := [x, y];
    assert cs[..1] == [x] && [x][..0] == [];
    assert AssignAll([x]) == map[] + x.results == x.results;
    assert cs[1..] == [y] && [y][1..] == [];
    assert JoinTexts([y]) == "";
  }

  /** One turn of the body. */
  lemma OneTurn(env: Env, h: History, c: Context)
    requires CountsEvents(env) && c.text == ""
    ensures InterpretStep(env, BOTH, h, c) ==
            Run(h + [Ran("a")] + [Ran("b")],
                Done(Context(c.message, c.results["a" := Num(|h| as real)] + c.results["b" := Num((|h| + 1) as real)],
                             "")))
  {
    BothBranches(env, h, c);
    var left, right := WithResult(c, "a", Num(|h| as real)), WithResult(c, "b", Num((|h| + 1) as real));
    var outcomes := [Done(left), Done(right)];
    assert outcomes[1..] == [Done(right)] && [Done(right)][1..] == [];
    assert FirstStop([Done(right)]) == None;
    assert DoneContexts(outcomes) == [left, right];
    MergeTwo(left, right);
  }

  lemma MessageExists(env: Env, c: Context)
    ensures CompareRule(env, c, Rule("message", Exists, None))
  {
    SplitPlain("message");
    OneSegment(env, AsValue(c), "message");
    assert ReadPath(env, c, "message") == Str(c.message);
  }

  lemma OneSegment(env: Env, v: Value, segment: string)
    requires segment != ""
    ensures DescendAll(env, v, NonEmpty([segment])) == Descend(env, v, segment)
  {
    assert [segment][1..] == [];
    assert NonEmpty([segment]) == [segment];
  }

  lemma TwoTurns(env: Env, h0: History, c0: Context, h1: History, c1: Context, h2: History, c2: Context)
    requires InterpretStep(env, BOTH, h0, c0) == Run(h1, Done(c1))
             && InterpretStep(env, BOTH, h1, c1) == Run(h2, Done(c2))
    ensures InterpretStep(env, TWICE, h0, c0) == Run(h2, Done(c2))
  {
    OneStep(env, BOTH, h0, c0);
    MessageExists(env, c1);
    LastTurn(env, h1, c1, h2, c2);
    assert InterpretLoop(env, WHILE_MESSAGE, h0, c0, 2) == Run(h2, Done(c2));
  }

  lemma LastTurn(env: Env, h: History, c: Context, h': History, c': Context)
    requires InterpretStep(env, BOTH, h, c) == Run(h', Done(c'))
    ensures InterpretLoop(env, WHILE_MESSAGE, h, c, 1) == Run(h', Done(c'))
  {
    OneStep(env, BOTH, h, c);
  }

  lemma OneTurnTo(env: Env, h: History, c: Context, h': History, c': Context)
    requires CountsEvents(env) && c.text == "" && h' == h + [Ran("a")] + [Ran("b")]
    requires c' == Context(c.message, c.results["a" := Num(|h| as real)] + c.results["b" := Num((|h| + 1) as real)], "")
    ensures InterpretStep(env, BOTH, h, c) == Run(h', Done(c'))
  {
    OneTurn(env, h, c);
  }

  /** It really happens: the loop runs both tools twice; the second answer of tool a, 2, is lost to the first,
      0, which the other branch still carries, while tool b's second answer, 3, is kept. */
  lemma SecondTurnLosesResults(any: Env, id: string, message: string)
    ensures RunProgram(Counting(any), CompileSequence([TWICE], id), [], Context(message, map[], "")) ==
            Run([Ran("a"), Ran("b"), Ran("a"), Ran("b")],
                Done(Context(message, map["a" := Num(0.0), "b" := Num(3.0)], "")))
  {
    var env := Counting(any);
    var c0 := Context(message, map[], "");
    var c1 := Context(message, map["a" := Num(0.0), "b" := Num(1.0)], "");
    var c2 := Context(message, map["a" := Num(0.0), "b" := Num(3.0)], "");
    var h1, h2 := [Ran("a"), Ran("b")], [Ran("a"), Ran("b"), Ran("a"), Ran("b")];
    assert c0.results["a" := Num(0.0)] + c0.results["b" := Num(1.0)] == c1.results;
    OneTurnTo(env, [], c0, h1, c1);
    assert c1.results["a" := Num(2.0)] + c1.results["b" := Num(3.0)] == c2.results;
    OneTurnTo(env, h1, c1, h2, c2);
    TwoTurns(env, [], c0, h1, c1, h2, c2);
    OneStep(env, TWICE, [], c0);
    CompileCorrect(env, [TWICE], id, [], c0);
  }
}
