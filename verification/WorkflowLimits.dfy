/**
  The definition validator (server.ts): inspectWorkflowSteps counts nodes and nesting depth and
  collects ids; its limits bound the number of leaf steps any run can execute.
 */
module WorkflowLimits {
  import opened WorkflowModel
  import opened WorkflowCompiler
  import opened WorkflowCorrectness
  import opened WorkflowParallel

  // ---------------------------------------------------------------- what the inspection computes

  function Count(steps: seq<Step>): nat
    decreases steps, 0
  {
    if steps == [] then 0 else StepCount(steps[0]) + Count(steps[1..])
  }

  function StepCount(s: Step): nat
    decreases s, 0
  {
    1
    + ConditionCount(s.condition)
    + ParallelCount(s.parallel)
    + LoopCount(s.loop)
  }

  function ConditionCount(c: ConditionBlock): nat
    decreases c, 0
  {
    if c.Condition? then Count(c.whenTrue) + Count(c.whenFalse) else 0
  }

  function ParallelCount(p: ParallelBlock): nat
    decreases p, 0
  {
    if p.Parallel? then BranchCount(p.branches) else 0
  }

  function LoopCount(l: LoopBlock): nat
    decreases l, 0
  {
    if l.Loop? then Count(l.steps) else 0
  }

  function BranchCount(branches: seq<BranchDef>): nat
    decreases branches, 0
  {
    if branches == [] then 0 else Count(branches[0].steps) + BranchCount(branches[1..])
  }

  function Max(a: nat, b: nat): nat {
    if a < b then b else a
  }

  /** Nesting depth: a list is one level, and every control block one more. */
  function Depth(steps: seq<Step>): (d: nat)
    ensures d >= 1
    decreases steps, 0
  {
    if steps == [] then 1 else Max(StepDepth(steps[0]), Depth(steps[1..]))
  }

  function StepDepth(s: Step): (d: nat)
    ensures d >= 1
    decreases s, 0
  {
    1 + Max(ConditionDepth(s.condition), Max(ParallelDepth(s.parallel), LoopDepth(s.loop)))
  }

  function ConditionDepth(c: ConditionBlock): nat
    decreases c, 0
  {
    if c.Condition? then Max(Depth(c.whenTrue), Depth(c.whenFalse)) else 0
  }

  function ParallelDepth(p: ParallelBlock): nat
    decreases p, 0
  {
    if p.Parallel? then BranchDepth(p.branches) else 0
  }

  function LoopDepth(l: LoopBlock): nat
    decreases l, 0
  {
    if l.Loop? then Depth(l.steps) else 0
  }

  function BranchDepth(branches: seq<BranchDef>): nat
    decreases branches, 0
  {
    if branches == [] then 0 else Max(Depth(branches[0].steps), BranchDepth(branches[1..]))
  }

  /** The counters of inspectWorkflowSteps, updated by a recursive visit. */
  class Inspection {
    var count: nat
    var depth: nat
    var ids: seq<string>

    constructor ()
      ensures count == 0 && depth == 1 && ids == []
    {
      count, depth, ids := 0, 1, [];
    }

    method Visit(items: seq<Step>, currentDepth: nat)
      requires currentDepth >= 1
      modifies this
      ensures count == old(count) + Count(items)
      ensures depth == Max(old(depth), currentDepth - 1 + Depth(items))
      ensures ids == old(ids) + Ids(items)
      decreases items, 1
    {
      depth := Max(depth, currentDepth);
      VisitEach(items, currentDepth);
    }

    /** items.forEach(...) */
    method VisitEach(items: seq<Step>, currentDepth: nat)
      requires 1 <= currentDepth <= depth
      modifies this
      ensures count == old(count) + Count(items)
      ensures depth == Max(old(depth), currentDepth - 1 + Depth(items))
      ensures ids == old(ids) + Ids(items)
      decreases items, 0
    {
      if items != [] {
        VisitStep(items[0], currentDepth);
        VisitEach(items[1..], currentDepth);
        assert ids == old(ids) + (StepIds(items[0]) + Ids(items[1..]));
      }
    }

    method VisitStep(step: Step, currentDepth: nat)
      requires 1 <= currentDepth <= depth
      modifies this
      ensures count == old(count) + StepCount(step)
      ensures depth == Max(old(depth), currentDepth - 1 + StepDepth(step))
      ensures ids == old(ids) + StepIds(step)
      decreases step, 0
    {
      count := count + 1;
      ids := ids + [step.id];
      VisitCondition(step.condition, currentDepth + 1);
      VisitParallel(step.parallel, currentDepth + 1);
      VisitLoop(step.loop, currentDepth + 1);
    }

    method VisitCondition(condition: ConditionBlock, currentDepth: nat)
      requires currentDepth >= 1
      modifies this
      ensures count == old(count) + ConditionCount(condition)
      ensures depth == Max(old(depth), if condition.Condition? then currentDepth - 1 + ConditionDepth(condition) else 0)
      ensures ids == old(ids) + ConditionIds(condition)
      decreases condition, 0
    {
      if condition.Condition? {
        Visit(condition.whenTrue, currentDepth);
        Visit(condition.whenFalse, currentDepth);
      }
    }

    method VisitParallel(parallel: ParallelBlock, currentDepth: nat)
      requires currentDepth >= 1
      modifies this
      ensures count == old(count) + ParallelCount(parallel)
      ensures depth == Max(old(depth), if ParallelDepth(parallel) == 0 then 0
                           else currentDepth - 1 + ParallelDepth(parallel))
      ensures ids == old(ids) + ParallelIds(parallel)
      decreases parallel, 0
    {
      if parallel.Parallel? {
        VisitBranches(parallel.branches, currentDepth);
      }
    }

    method VisitLoop(loop: LoopBlock, currentDepth: nat)
      requires currentDepth >= 1
      modifies this
      ensures count == old(count) + LoopCount(loop)
      ensures depth == Max(old(depth), if loop.Loop? then currentDepth - 1 + LoopDepth(loop) else 0)
      ensures ids == old(ids) + LoopIds(loop)
      decreases loop, 0
    {
      if loop.Loop? {
        Visit(loop.steps, currentDepth);
      }
    }

    method VisitBranches(branches: seq<BranchDef>, currentDepth: nat)
      requires currentDepth >= 1
      modifies this
      ensures count == old(count) + BranchCount(branches)
      ensures depth == Max(old(depth), if BranchDepth(branches) == 0 then 0
                           else currentDepth - 1 + BranchDepth(branches))
      ensures ids == old(ids) + BranchIds(branches)
      decreases branches, 0
    {
      if branches == [] {
        return;
      }
      ghost var first, rest := branches[0].steps, branches[1..];
      Visit(branches[0].steps, currentDepth);
      VisitBranches(branches[1..], currentDepth);
      assert ids == old(ids) + (Ids(first) + BranchIds(rest));
      DepthOfMore(old(depth), currentDepth, Depth(first), BranchDepth(rest));
    }
  }

  lemma DepthOfMore(depth: nat, currentDepth: nat, first: nat, rest: nat)
    requires currentDepth >= 1 && first >= 1
    ensures Max(Max(depth, currentDepth - 1 + first), if rest == 0 then 0 else currentDepth - 1 + rest)
         == Max(depth, currentDepth - 1 + Max(first, rest))
  {}

  /** new Set(ids) */
  function Elements(s: seq<string>): set<string> {
    set x | x in s
  }

  /** inspectWorkflowSteps and the three checks on its result. */
  method Accepts(steps: seq<Step>) returns (ok: bool)
    ensures ok <==> Count(steps) <= 100 && Depth(steps) <= 5 && Unique(Ids(steps))
  {
    var inspection := new Inspection();
    inspection.Visit(steps, 1);
    assert inspection.ids == Ids(steps);
    DistinctSize(inspection.ids);
    ok := inspection.count <= 100 && inspection.depth <= 5 && |Elements(inspection.ids)| == |inspection.ids|;
  }

  lemma UniqueNext(s: seq<string>)
    requires s != []
    ensures Unique(s) <==> Unique(s[..|s| - 1]) && s[|s| - 1] !in s[..|s| - 1]
  {
    var n := |s| - 1;
    var front := s[..n];
    assert forall i :: 0 <= i < n ==> front[i] == s[i];
    if s[n] in front {
      var i :| 0 <= i < n && front[i] == s[n];
      assert s[i] == s[n];
    }
  }

  /** A list has no repetition exactly when the set of its elements has its length. */
  lemma {:induction false} DistinctSize(s: seq<string>)
    ensures |Elements(s)| <= |s|
    ensures |Elements(s)| == |s| <==> Unique(s)
    decreases |s|
  {
    if s == [] {
      assert Elements(s) == {};
    } else {
      var n := |s| - 1;
      DistinctSize(s[..n]);
      UniqueNext(s);
      assert s == s[..n] + [s[n]];
      assert Elements(s) == Elements(s[..n]) + {s[n]};
    }
  }

  // ---------------------------------------------------------------- the bound on leaf runs

  /** How many leaf steps a history entered. */
  function LeafRuns(h: History): nat {
    if h == [] then 0
    else LeafRuns(h[..|h| - 1]) + (if h[|h| - 1].Ran? || h[|h| - 1].Asked? then 1 else 0)
  }

  function Pow50(n: nat): (p: nat)
    ensures p >= 1
  {
    if n == 0 then 1 else 50 * Pow50(n - 1)
  }

  /** Loop bounds at most 50 everywhere. */
  predicate Bounded(steps: seq<Step>)
    decreases steps, 0
  {
    steps == [] || (StepBounded(steps[0]) && Bounded(steps[1..]))
  }

  predicate StepBounded(s: Step)
    decreases s, 0
  {
    && (s.condition.Condition? ==> Bounded(s.condition.whenTrue) && Bounded(s.condition.whenFalse))
    && (s.parallel.Parallel? ==> BranchesBounded(s.parallel.branches))
    && (s.loop.Loop? ==> s.loop.maxIterations <= 50 && Bounded(s.loop.steps))
  }

  predicate BranchesBounded(branches: seq<BranchDef>)
    decreases branches, 0
  {
    branches == [] || (Bounded(branches[0].steps) && BranchesBounded(branches[1..]))
  }

  /** n * p by repeated addition: keeps products out of the inductive proofs below. */
  function Times(n: nat, p: nat): nat {
    if n == 0 then 0 else p + Times(n - 1, p)
  }

  lemma {:induction false} TimesIsProduct(n: nat, p: nat)
    ensures Times(n, p) == n * p
  {
    if n > 0 {
      TimesIsProduct(n - 1, p);
      assert n * p == p + (n - 1) * p;
    }
  }

  lemma {:induction false} Pow50Grows(a: nat, b: nat)
    requires a <= b
    ensures Pow50(a) <= Pow50(b)
    decreases b
  {
    if a < b {
      Pow50Grows(a, b - 1);
    }
  }

  lemma {:induction false} TimesGrows(m: nat, n: nat, p: nat, q: nat)
    requires m <= n && p <= q
    ensures Times(m, p) <= Times(n, q)
    decreases n
  {
    if m > 0 {
      TimesGrows(m - 1, n - 1, p, q);
    } else if n > 0 {
      TimesGrows(0, n - 1, p, q);
    }
  }

  lemma CapAdds(m: nat, n: nat, d: nat)
    requires d >= 1
    ensures Cap(m, d) + Cap(n, d) == Cap(m + n, d)
  {
    TimesAdds(m, n, Pow50(d - 1));
  }

  lemma {:induction false} TimesAdds(m: nat, n: nat, p: nat)
    ensures Times(m, p) + Times(n, p) == Times(m + n, p)
  {
    if m > 0 {
      TimesAdds(m - 1, n, p);
    }
  }

  lemma FiftyTimes(n: nat, d: nat)
    requires d >= 1
    ensures Times(50, Times(n, Pow50(d - 1))) == Times(n, Pow50(d))
  {
    TimesIsProduct(n, Pow50(d - 1));
    TimesIsProduct(50, Times(n, Pow50(d - 1)));
    TimesIsProduct(n, Pow50(d));
    Associate(n, Pow50(d - 1));
  }

  lemma Associate(n: nat, q: nat)
    ensures 50 * (n * q) == n * (50 * q)
  {}

  /** The bound for a list of steps with this count and depth. */
  function Cap(count: nat, depth: nat): nat
    requires depth >= 1
  {
    Times(count, Pow50(depth - 1))
  }

  lemma CapGrows(m: nat, n: nat, d: nat, e: nat)
    requires m <= n && 1 <= d <= e
    ensures Cap(m, d) <= Cap(n, e)
  {
    Pow50Grows(d - 1, e - 1);
    TimesGrows(m, n, Pow50(d - 1), Pow50(e - 1));
  }

  /** Every run of a definition with loop bounds at most 50 enters at most count * 50^(depth-1)
      leaf steps. */
  lemma {:induction false} LeafBound(env: Env, steps: seq<Step>, h: History, c: Context)
    requires Bounded(steps)
    ensures LeafRuns(Interpret(env, steps, h, c).h) <= LeafRuns(h) + Count(steps) * Pow50(Depth(steps) - 1)
  {
    LeafCap(env, steps, h, c);
    TimesIsProduct(Count(steps), Pow50(Depth(steps) - 1));
  }

  lemma {:induction false} CapSplits(steps: seq<Step>)
    requires steps != []
    ensures Cap(StepCount(steps[0]), StepDepth(steps[0])) + Cap(Count(steps[1..]), Depth(steps[1..]))
            <= Cap(Count(steps), Depth(steps))
  {
    var m, n, d := StepCount(steps[0]), Count(steps[1..]), Depth(steps);
    CapGrows(m, m, StepDepth(steps[0]), d);
    CapGrows(n, n, Depth(steps[1..]), d);
    TimesAdds(m, n, Pow50(d - 1));
  }

  lemma {:induction false} LeafCap(env: Env, steps: seq<Step>, h: History, c: Context)
    requires Bounded(steps)
    ensures LeafRuns(Interpret(env, steps, h, c).h) <= LeafRuns(h) + Cap(Count(steps), Depth(steps))
    decreases steps, 0
  {
    if steps != [] {
      var r := InterpretStep(env, steps[0], h, c);
      StepLeafCap(env, steps[0], h, c);
      CapSplits(steps);
      if r.outcome.Done? {
        LeafCap(env, steps[1..], r.h, r.outcome.ctx);
      }
    }
  }

  lemma {:induction false} StepLeafCap(env: Env, s: Step, h: History, c: Context)
    requires StepBounded(s)
    ensures LeafRuns(InterpretStep(env, s, h, c).h) <= LeafRuns(h) + Cap(StepCount(s), StepDepth(s))
    decreases s, 0
  {
    if IsCondition(s) {
      var chosen := if CompareRule(env, c, s.condition.rule) then s.condition.whenTrue else s.condition.whenFalse;
      LeafCap(env, chosen, h, c);
      assert ConditionCount(s.condition) == Count(s.condition.whenTrue) + Count(s.condition.whenFalse);
      assert ConditionDepth(s.condition) == Max(Depth(s.condition.whenTrue), Depth(s.condition.whenFalse));
      CapGrows(Count(chosen), StepCount(s), Depth(chosen), StepDepth(s));
    } else if IsParallel(s) {
      BranchesLeafCap(env, s.parallel.branches, h, c, StepDepth(s));
      assert ParallelCount(s.parallel) == BranchCount(s.parallel.branches);
      CapGrows(BranchCount(s.parallel.branches), StepCount(s), StepDepth(s), StepDepth(s));
    } else if IsLoop(s) {
      RepeatedLeafCap(env, s, h, c);
      assert LoopCount(s.loop) == Count(s.loop.steps) && LoopDepth(s.loop) == Depth(s.loop.steps);
      FiftyTimes(Count(s.loop.steps), Depth(s.loop.steps));
      CapGrows(Count(s.loop.steps), StepCount(s), Depth(s.loop.steps) + 1, StepDepth(s));
    } else {
      LeafRunsOfLeaf(env, s, h, c);
      CapGrows(1, StepCount(s), 1, StepDepth(s));
    }
  }

  lemma {:induction false} RepeatedLeafCap(env: Env, s: Step, h: History, c: Context)
    requires StepBounded(s) && IsLoop(s)
    ensures LeafRuns(InterpretStep(env, s, h, c).h)
            <= LeafRuns(h) + Times(50, Cap(Count(s.loop.steps), Depth(s.loop.steps)))
    decreases s.loop, 1
  {
    var k := Cap(Count(s.loop.steps), Depth(s.loop.steps));
    if s.loop.mode == Foreach {
      var items := ForeachItems(env, s, c);
      if items.Some? {
        var e := Items(s.id, |items.value|);
        assert (h + [e])[..|h|] == h;
        ItemsLeafCap(env, s.loop.steps, h + [e], items.value);
        TimesGrows(|items.value|, 50, k, k);
      }
    } else {
      LoopLeafCap(env, s.loop, h, c, s.loop.maxIterations);
      TimesGrows(Max(1, s.loop.maxIterations), 50, k, k);
    }
  }

  lemma LeafRunsOfLeaf(env: Env, s: Step, h: History, c: Context)
    ensures LeafRuns(RunLeaf(env, s, h, c).h) == LeafRuns(h) + 1
  {
    assert (h + [Ran(s.id)])[..|h|] == h;
    assert (h + [Asked(s.id)])[..|h|] == h;
    assert (h + [Asked(s.id), Approved(s.id)])[..|h| + 1] == h + [Asked(s.id)];
    assert (h + [Asked(s.id), Denied(s.id)])[..|h| + 1] == h + [Asked(s.id)];
  }

  lemma {:induction false} BranchesLeafCap(env: Env, branches: seq<BranchDef>, h: History, c: Context, d: nat)
    requires BranchesBounded(branches) && BranchDepth(branches) <= d && d >= 1
    ensures LeafRuns(InterpretBranches(env, branches, h, c).h) <= LeafRuns(h) + Cap(BranchCount(branches), d)
    decreases branches, 0
  {
    if branches != [] {
      var steps, rest := branches[0].steps, branches[1..];
      LeafCap(env, steps, h, c);
      CapGrows(Count(steps), Count(steps), Depth(steps), d);
      var h1 := Interpret(env, steps, h, c).h;
      BranchesLeafCap(env, rest, h1, c, d);
      CapAdds(Count(steps), BranchCount(rest), d);
      assert InterpretBranches(env, branches, h, c).h == InterpretBranches(env, rest, h1, c).h;
    }
  }

  lemma {:induction false} ItemsLeafCap(env: Env, body: seq<Step>, h: History, items: seq<Context>)
    requires Bounded(body)
    ensures LeafRuns(InterpretItems(env, body, h, items).h)
            <= LeafRuns(h) + Times(|items|, Cap(Count(body), Depth(body)))
    decreases body, 1, |items|
  {
    if items != [] {
      LeafCap(env, body, h, items[0]);
      var r := Interpret(env, body, h, items[0]);
      if r.outcome.Done? {
        ItemsLeafCap(env, body, r.h, items[1..]);
      }
    }
  }

  lemma {:induction false} LoopLeafCap(env: Env, l: LoopBlock, h: History, c: Context, budget: nat)
    requires l.Loop? && l.mode != Foreach && Bounded(l.steps)
    ensures LeafRuns(InterpretLoop(env, l, h, c, budget).h)
            <= LeafRuns(h) + Times(Max(1, budget), Cap(Count(l.steps), Depth(l.steps)))
    decreases l.steps, 1, budget
  {
    LeafCap(env, l.steps, h, c);
    var r := Interpret(env, l.steps, h, c);
    if r.outcome.Done? && budget > 1 && !Decisive(env, l, r.outcome.ctx) {
      LoopLeafCap(env, l, r.h, r.outcome.ctx, budget - 1);
    }
  }

  /** Whatever the validator accepts runs at most 100 * 50^4 leaf steps, as compiled. */
  lemma {:induction false} AcceptedRunsAreBounded(env: Env, steps: seq<Step>, id: string, c: Context)
    requires Count(steps) <= 100 && Depth(steps) <= 5 && Bounded(steps)
    ensures LeafRuns(RunProgram(env, CompileSequence(steps, id), [], c).h) <= 100 * 50 * 50 * 50 * 50
  {
    CompileCorrect(env, steps, id, [], c);
    LeafCap(env, steps, [], c);
    CapGrows(Count(steps), 100, Depth(steps), 5);
    TimesIsProduct(100, Pow50(4));
    assert Pow50(4) == 50 * Pow50(3) == 50 * 50 * Pow50(2) == 50 * 50 * 50 * Pow50(1) == 50 * 50 * 50 * 50;
  }
}
