/**
  What a step tree can put into the results, in every run that finishes, also one in which a foreach over an empty
  array has dropped them: outside the keys it writes there is nothing but what was there before.
 */
module WorkflowAdds {
  import opened WorkflowModel
  import opened WorkflowCompiler
  import opened WorkflowProperties

  /** Outside the keys, c' holds only results of c. */
  ghost predicate Adds(c: Context, c': Context, keys: set<string>) {
    forall k :: k !in keys && k in c'.results ==> OldAt(c, c', k)
  }

  predicate OldAt(c: Context, c': Context, k: string)
    requires k in c'.results
  {
    k in c.results && c.results[k] == c'.results[k]
  }

  lemma KeepsAdds(c: Context, c': Context, keys: set<string>)
    requires Keeps(c, c', keys)
    ensures Adds(c, c', keys)
  {
    forall k | k !in keys && k in c'.results ensures OldAt(c, c', k) {
      assert SameAt(c, c', k);
    }
  }

  lemma AddsCompose(a: Context, b: Context, c: Context, k1: set<string>, k2: set<string>)
    requires Adds(a, b, k1) && Adds(b, c, k2)
    ensures Adds(a, c, k1 + k2)
  {
    forall k | k !in k1 + k2 && k in c.results ensures OldAt(a, c, k) {
      assert OldAt(b, c, k);
      assert OldAt(a, b, k);
    }
  }

  /** Every result is that of one of the merged contexts. */
  lemma MergeAdds(c: Context, cs: seq<Context>, keys: set<string>)
    requires forall i :: 0 <= i < |cs| ==> Adds(c, cs[i], keys)
    ensures Adds(c, MergeContexts(cs), keys)
  {
    forall k | k !in keys && k in AssignAll(cs) ensures OldAt(c, MergeContexts(cs), k) {
      var i := LastHolder(cs, k);
      AssignLast(cs, i, k);
      assert OldAt(c, cs[i], k);
    }
  }

  lemma AddsMore(c: Context, c': Context, few: set<string>, many: set<string>)
    requires Adds(c, c', few) && few <= many
    ensures Adds(c, c', many)
  {}

  predicate AllFinish(outcomes: seq<Outcome>) {
    forall i :: 0 <= i < |outcomes| ==> outcomes[i].Done?
  }

  lemma AllFinishTail(outcomes: seq<Outcome>)
    requires AllFinish(outcomes) && outcomes != []
    ensures outcomes[0].Done? && AllFinish(outcomes[1..])
  {}

  /** A step tree adds and changes only results it writes. */
  lemma {:induction false} InterpretAdds(env: Env, steps: seq<Step>, h: History, c: Context)
    requires Interpret(env, steps, h, c).outcome.Done?
    ensures Adds(c, Interpret(env, steps, h, c).outcome.ctx, Writes(steps))
    decreases steps, 0
  {
    if steps != [] {
      var r := InterpretStep(env, steps[0], h, c);
      StepAdds(env, steps[0], h, c);
      InterpretAdds(env, steps[1..], r.h, r.outcome.ctx);
      AddsCompose(c, r.outcome.ctx, Interpret(env, steps, h, c).outcome.ctx, StepWrites(steps[0]), Writes(steps[1..]));
    }
  }

  lemma {:induction false} StepAdds(env: Env, s: Step, h: History, c: Context)
    requires InterpretStep(env, s, h, c).outcome.Done?
    ensures Adds(c, InterpretStep(env, s, h, c).outcome.ctx, StepWrites(s))
    decreases s, 0
  {
    if IsCondition(s) {
      var chosen := if CompareRule(env, c, s.condition.rule) then s.condition.whenTrue else s.condition.whenFalse;
      InterpretAdds(env, chosen, h, c);
    } else if IsParallel(s) {
      var all := InterpretBranches(env, s.parallel.branches, h, c);
      NoStopMeansDone(all.outcomes);
      BranchesAdd(env, s.parallel.branches, h, c);
      MergeAdds(c, DoneContexts(all.outcomes), StepWrites(s));
    } else if IsLoop(s) {
      if s.loop.mode == Foreach {
        ForeachAdds(env, s, h, c);
      } else {
        LoopAdds(env, s.loop, h, c, s.loop.maxIterations);
      }
    } else {
      LeafPreserves(env, s, h, c);
      KeepsAdds(c, RunLeaf(env, s, h, c).outcome.ctx, {s.id});
    }
  }

  /** Outcome i is that of branch i, which adds only results of its own. */
  ghost predicate BranchAdds(c: Context, branches: seq<BranchDef>, outcomes: seq<Outcome>, i: nat)
    requires i < |branches| && i < |outcomes|
  {
    outcomes[i].Done? && Adds(c, outcomes[i].ctx, Writes(branches[i].steps))
    && Writes(branches[i].steps) <= BranchWrites(branches)
  }

  lemma {:induction false} BranchesAdd(env: Env, branches: seq<BranchDef>, h: History, c: Context)
    requires AllFinish(InterpretBranches(env, branches, h, c).outcomes)
    ensures var all := InterpretBranches(env, branches, h, c);
            |all.outcomes| == |branches| && forall i: nat :: i < |branches| ==> BranchAdds(c, branches, all.outcomes, i)
    ensures forall i: nat :: i < |branches| ==>
              Adds(c, InterpretBranches(env, branches, h, c).outcomes[i].ctx, BranchWrites(branches))
    decreases branches, 0
  {
    if branches != [] {
      var r := Interpret(env, branches[0].steps, h, c);
      var all := InterpretBranches(env, branches, h, c);
      var rest := InterpretBranches(env, branches[1..], r.h, c);
      assert all.outcomes[0] == r.outcome && all.outcomes[1..] == rest.outcomes;
      AllFinishTail(all.outcomes);
      InterpretAdds(env, branches[0].steps, h, c);
      BranchesAdd(env, branches[1..], r.h, c);
      forall i: nat | i < |branches| ensures BranchAdds(c, branches, all.outcomes, i) {
        if i > 0 {
          assert BranchAdds(c, branches[1..], rest.outcomes, i - 1);
        }
      }
    }
  }

  lemma {:induction false} ForeachAdds(env: Env, s: Step, h: History, c: Context)
    requires IsLoop(s) && s.loop.mode == Foreach && InterpretStep(env, s, h, c).outcome.Done?
    ensures Adds(c, InterpretStep(env, s, h, c).outcome.ctx, StepWrites(s))
    decreases s.loop, 1
  {
    var items, keys := ForeachItems(env, s, c).value, {s.id + ".item", s.id + ".index"};
    var all := InterpretItems(env, s.loop.steps, h + [Items(s.id, |items|)], items);
    NoStopMeansDone(all.outcomes);
    forall i | 0 <= i < |items| ensures Adds(c, items[i], keys) {
      assert items[i] == WithItem(c, s.id, ReadPath(env, c, s.loop.sourcePath).items[i], i);
    }
    ItemsAdd(env, s.loop.steps, h + [Items(s.id, |items|)], items, c, keys);
    MergeAdds(c, DoneContexts(all.outcomes), StepWrites(s));
  }

  lemma {:induction false} ItemsAdd(env: Env, body: seq<Step>, h: History, items: seq<Context>, c: Context,
                                    extra: set<string>)
    requires forall i :: 0 <= i < |items| ==> Adds(c, items[i], extra)
    requires AllFinish(InterpretItems(env, body, h, items).outcomes)
    ensures var all := InterpretItems(env, body, h, items);
            |all.outcomes| == |items|
            && forall i :: 0 <= i < |items| ==> Adds(c, all.outcomes[i].ctx, extra + Writes(body))
    decreases body, 1, |items|
  {
    if items != [] {
      var r := Interpret(env, body, h, items[0]);
      var all := InterpretItems(env, body, h, items);
      assert all.outcomes[0] == r.outcome;
      AllFinishTail(all.outcomes);
      var rest := InterpretItems(env, body, r.h, items[1..]);
      assert all.outcomes[1..] == rest.outcomes;
      InterpretAdds(env, body, h, items[0]);
      AddsCompose(c, items[0], r.outcome.ctx, extra, Writes(body));
      ItemsAdd(env, body, r.h, items[1..], c, extra);
      forall i | 0 < i < |items| ensures Adds(c, all.outcomes[i].ctx, extra + Writes(body)) {
        assert all.outcomes[i] == rest.outcomes[i - 1];
      }
    }
  }

  lemma {:induction false} LoopAdds(env: Env, l: LoopBlock, h: History, c: Context, budget: nat)
    requires l.Loop? && l.mode != Foreach && InterpretLoop(env, l, h, c, budget).outcome.Done?
    ensures Adds(c, InterpretLoop(env, l, h, c, budget).outcome.ctx, Writes(l.steps))
    decreases l.steps, 1, budget
  {
    var r := Interpret(env, l.steps, h, c);
    InterpretAdds(env, l.steps, h, c);
    if r.outcome.Done? && budget > 1 && !Decisive(env, l, r.outcome.ctx) {
      LoopAdds(env, l, r.h, r.outcome.ctx, budget - 1);
      AddsCompose(c, r.outcome.ctx, InterpretLoop(env, l, h, c, budget).outcome.ctx, Writes(l.steps), Writes(l.steps));
    }
  }
}
