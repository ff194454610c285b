/**
  Properties of runs of the direct interpreter: a run only ever extends its history, how often loop
  bodies run, and what a step tree may write and must keep.
 */
module WorkflowProperties {
  import opened WorkflowModel
  import opened WorkflowCompiler

  // ---------------------------------------------------------------- histories only grow

  lemma {:induction false} HistoryGrows(env: Env, steps: seq<Step>, h: History, c: Context)
    ensures h <= Interpret(env, steps, h, c).h
    decreases steps, 0
  {
    if steps != [] {
      StepHistoryGrows(env, steps[0], h, c);
      var r := InterpretStep(env, steps[0], h, c);
      if r.outcome.Done? {
        HistoryGrows(env, steps[1..], r.h, r.outcome.ctx);
      }
    }
  }

  lemma {:induction false} StepHistoryGrows(env: Env, s: Step, h: History, c: Context)
    ensures h <= InterpretStep(env, s, h, c).h
    decreases s, 0
  {
    if IsCondition(s) {
      HistoryGrows(env, s.condition.whenTrue, h, c);
      HistoryGrows(env, s.condition.whenFalse, h, c);
    } else if IsParallel(s) {
      BranchesHistoryGrows(env, s.parallel.branches, h, c);
    } else if IsLoop(s) {
      if s.loop.mode == Foreach {
        var items := ForeachItems(env, s, c);
        if items.Some? {
          ItemsHistoryGrows(env, s.loop.steps, h + [Items(s.id, |items.value|)], items.value);
        }
      } else {
        LoopHistoryGrows(env, s.loop, h, c, s.loop.maxIterations);
      }
    }
  }

  lemma {:induction false} BranchesHistoryGrows(env: Env, branches: seq<BranchDef>, h: History, c: Context)
    ensures h <= InterpretBranches(env, branches, h, c).h
    decreases branches, 0
  {
    if branches != [] {
      HistoryGrows(env, branches[0].steps, h, c);
      BranchesHistoryGrows(env, branches[1..], Interpret(env, branches[0].steps, h, c).h, c);
    }
  }

  lemma {:induction false} ItemsHistoryGrows(env: Env, body: seq<Step>, h: History, items: seq<Context>)
    ensures h <= InterpretItems(env, body, h, items).h
    decreases body, 1, |items|
  {
    if items != [] {
      HistoryGrows(env, body, h, items[0]);
      var r := Interpret(env, body, h, items[0]);
      if r.outcome.Done? {
        ItemsHistoryGrows(env, body, r.h, items[1..]);
      }
    }
  }

  lemma {:induction false} LoopHistoryGrows(env: Env, l: LoopBlock, h: History, c: Context, budget: nat)
    requires l.Loop? && l.mode != Foreach
    ensures h <= InterpretLoop(env, l, h, c, budget).h
    decreases l.steps, 1, budget
  {
    HistoryGrows(env, l.steps, h, c);
    var r := Interpret(env, l.steps, h, c);
    if r.outcome.Done? && budget > 1 && !Decisive(env, l, r.outcome.ctx) {
      LoopHistoryGrows(env, l, r.h, r.outcome.ctx, budget - 1);
    }
  }

  // ---------------------------------------------------------------- while and until

  /** turns are consecutive body runs from (h, c): each but the last finished on a value that does
      not decide the loop, and the last one stopped the run, decided it, or spent the bound. */
  ghost predicate AreTurns(env: Env, l: LoopBlock, h: History, c: Context, turns: seq<Run>)
    requires l.Loop?
  {
    && 1 <= |turns| <= (if l.maxIterations == 0 then 1 else l.maxIterations)
    && turns[0] == Interpret(env, l.steps, h, c)
    && (forall i :: 0 <= i < |turns| - 1 ==>
          && turns[i].outcome.Done?
          && !Decisive(env, l, turns[i].outcome.ctx)
          && turns[i + 1] == Interpret(env, l.steps, turns[i].h, turns[i].outcome.ctx))
    && var last := turns[|turns| - 1];
      !last.outcome.Done? || Decisive(env, l, last.outcome.ctx) || |turns| >= l.maxIterations
  }

  /** A while or until step runs its body at least once and at most maxIterations times, stops at
      the first decisive rule value or at the bound, and its result is that of the last body run. */
  lemma {:induction false} LoopTurns(env: Env, s: Step, h: History, c: Context) returns (turns: seq<Run>)
    requires IsLoop(s) && s.loop.mode != Foreach
    ensures AreTurns(env, s.loop, h, c, turns)
    ensures InterpretStep(env, s, h, c) == turns[|turns| - 1]
  {
    turns := TurnsOf(env, s.loop, h, c, s.loop.maxIterations);
  }

  lemma {:induction false} TurnsOf(env: Env, l: LoopBlock, h: History, c: Context, budget: nat)
    returns (turns: seq<Run>)
    requires l.Loop? && l.mode != Foreach && budget <= l.maxIterations
    ensures AreTurns(env, l.(maxIterations := budget), h, c, turns)
    ensures InterpretLoop(env, l, h, c, budget) == turns[|turns| - 1]
    decreases budget
  {
    var r := Interpret(env, l.steps, h, c);
    if r.outcome.Done? && budget > 1 && !Decisive(env, l, r.outcome.ctx) {
      var rest := TurnsOf(env, l, r.h, r.outcome.ctx, budget - 1);
      turns := [r] + rest;
      forall i | 0 <= i < |turns| - 1
        ensures turns[i].outcome.Done? && !Decisive(env, l, turns[i].outcome.ctx)
        ensures turns[i + 1] == Interpret(env, l.steps, turns[i].h, turns[i].outcome.ctx)
      {
        if i > 0 {
          assert turns[i] == rest[i - 1] && turns[i + 1] == rest[i];
        }
      }
    } else {
      turns := [r];
    }
  }

  // ---------------------------------------------------------------- foreach

  /** runs are the body runs on items, one after the other, each starting where the last ended. */
  ghost predicate AreItemRuns(env: Env, body: seq<Step>, h: History, items: seq<Context>, runs: seq<Run>) {
    && |runs| <= |items|
    && (runs != [] ==> runs[0] == Interpret(env, body, h, items[0]))
    && (forall i :: 0 < i < |runs| ==> runs[i] == Interpret(env, body, runs[i - 1].h, items[i]))
    && (forall i :: 0 <= i < |runs| - 1 ==> runs[i].outcome.Done?)
    && (|runs| < |items| ==> runs != [] && !runs[|runs| - 1].outcome.Done?)
  }

  /** runs are the body runs, in order, on each of the first maxIterations items of the array, with the item and its
      index added to the incoming context, and all finish. */
  ghost predicate AreForeachRuns(env: Env, s: Step, h: History, c: Context, runs: seq<Run>)
    requires IsLoop(s)
  {
    ReadPath(env, c, s.loop.sourcePath).Arr? &&
    var source := ReadPath(env, c, s.loop.sourcePath).items;
    && |runs| == (if |source| < ForeachLimit(s.loop) then |source| else ForeachLimit(s.loop))
    && AreItemRuns(env, s.loop.steps, h + [Items(s.id, |runs|)],
                   seq(|runs|, i requires 0 <= i < |runs| => WithItem(c, s.id, source[i], i)), runs)
    && forall i :: 0 <= i < |runs| ==> runs[i].outcome.Done?
  }

  /** The contexts finished runs end with. */
  function Contexts(runs: seq<Run>): (cs: seq<Context>)
    requires forall i :: 0 <= i < |runs| ==> runs[i].outcome.Done?
    ensures |cs| == |runs| && forall i :: 0 <= i < |runs| ==> cs[i] == runs[i].outcome.ctx
  {
    seq(|runs|, i requires 0 <= i < |runs| => runs[i].outcome.ctx)
  }

  /** A foreach that finishes ran its body like that, and hands on the merge. */
  lemma {:induction false} ForeachRuns(env: Env, s: Step, h: History, c: Context) returns (runs: seq<Run>)
    requires IsLoop(s) && s.loop.mode == Foreach
    requires InterpretStep(env, s, h, c).outcome.Done?
    ensures AreForeachRuns(env, s, h, c, runs)
    ensures InterpretStep(env, s, h, c).outcome.ctx == MergeContexts(Contexts(runs))
  {
    var items := ForeachItems(env, s, c).value;
    var h1 := h + [Items(s.id, |items|)];
    runs := ItemRunsOf(env, s.loop.steps, h1, items);
    var all := InterpretItems(env, s.loop.steps, h1, items);
    NoStopMeansDone(all.outcomes);
    assert all.outcomes == seq(|runs|, i requires 0 <= i < |runs| => runs[i].outcome);
    AllDone(runs, all.outcomes);
    var source := ReadPath(env, c, s.loop.sourcePath).items;
    assert items == seq(|runs|, i requires 0 <= i < |runs| => WithItem(c, s.id, source[i], i));
    assert DoneContexts(all.outcomes) == Contexts(runs);
  }

  lemma AllDone(runs: seq<Run>, outcomes: seq<Outcome>)
    requires |outcomes| == |runs| && forall i :: 0 <= i < |runs| ==> outcomes[i] == runs[i].outcome && outcomes[i].Done?
    ensures forall i :: 0 <= i < |runs| ==> runs[i].outcome.Done?
  {
    forall i | 0 <= i < |runs| ensures runs[i].outcome.Done? {
      assert outcomes[i].Done?;
    }
  }

  lemma {:induction false} NoStopMeansDone(outcomes: seq<Outcome>)
    ensures FirstStop(outcomes).None? <==> forall i :: 0 <= i < |outcomes| ==> outcomes[i].Done?
  {
    if outcomes != [] {
      NoStopMeansDone(outcomes[1..]);
      assert forall i :: 0 < i < |outcomes| ==> outcomes[i] == outcomes[1..][i - 1];
      if FirstStop(outcomes).None? {
        assert outcomes[0].Done?;
      } else if outcomes[0].Done? {
        var j :| 0 <= j < |outcomes[1..]| && !outcomes[1..][j].Done?;
        assert !outcomes[j + 1].Done?;
      }
    }
  }

  lemma {:induction false} ItemRunsOf(env: Env, body: seq<Step>, h: History, items: seq<Context>)
    returns (runs: seq<Run>)
    ensures AreItemRuns(env, body, h, items, runs)
    ensures InterpretItems(env, body, h, items).outcomes == seq(|runs|, i requires 0 <= i < |runs| => runs[i].outcome)
    decreases |items|
  {
    if items == [] {
      runs := [];
    } else {
      var r := Interpret(env, body, h, items[0]);
      if r.outcome.Done? {
        var rest := ItemRunsOf(env, body, r.h, items[1..]);
        runs := [r] + rest;
        forall i | 0 < i < |runs|
          ensures runs[i] == Interpret(env, body, runs[i - 1].h, items[i])
        {
          assert runs[i] == rest[i - 1] && items[i] == items[1..][i - 1];
          if i > 1 {
            assert rest[i - 1] == Interpret(env, body, rest[i - 2].h, items[1..][i - 1]);
            assert runs[i - 1] == rest[i - 2];
          } else {
            assert rest[0] == Interpret(env, body, r.h, items[1..][0]);
          }
        }
      } else {
        runs := [r];
      }
    }
  }

  // ---------------------------------------------------------------- what a step tree writes

  /** The result keys a list of steps may write. */
  function Writes(steps: seq<Step>): set<string>
    decreases steps, 0
  {
    if steps == [] then {} else StepWrites(steps[0]) + Writes(steps[1..])
  }

  function StepWrites(s: Step): set<string>
    decreases s, 0
  {
    if IsCondition(s) then Writes(s.condition.whenTrue) + Writes(s.condition.whenFalse)
    else if IsParallel(s) then BranchWrites(s.parallel.branches)
    else if IsLoop(s) then
      (if s.loop.mode == Foreach then {s.id + ".item", s.id + ".index"} else {}) + Writes(s.loop.steps)
    else {s.id}
  }

  function BranchWrites(branches: seq<BranchDef>): set<string>
    decreases branches, 0
  {
    if branches == [] then {} else Writes(branches[0].steps) + BranchWrites(branches[1..])
  }

  /** c' has the message of c, and the same results outside the given keys. */
  ghost predicate Keeps(c: Context, c': Context, keys: set<string>) {
    && c'.message == c.message
    && forall k :: k !in keys ==> SameAt(c, c', k)
  }

  predicate SameAt(c: Context, c': Context, k: string) {
    (k in c.results <==> k in c'.results) && (k in c.results ==> c.results[k] == c'.results[k])
  }

  /** No foreach in the history found an empty array. */
  predicate NoEmptyForeach(h: History) {
    forall i :: 0 <= i < |h| && h[i].Items? ==> h[i].n > 0
  }

  /** The validator's minimum branch count: every parallel node has a branch. */
  predicate HasBranches(steps: seq<Step>)
    decreases steps, 0
  {
    steps == [] || (StepHasBranches(steps[0]) && HasBranches(steps[1..]))
  }

  predicate StepHasBranches(s: Step)
    decreases s, 0
  {
    if IsCondition(s) then HasBranches(s.condition.whenTrue) && HasBranches(s.condition.whenFalse)
    else if IsParallel(s) then s.parallel.branches != [] && AllHaveBranches(s.parallel.branches)
    else if IsLoop(s) then HasBranches(s.loop.steps)
    else true
  }

  predicate AllHaveBranches(branches: seq<BranchDef>)
    decreases branches, 0
  {
    branches == [] || (HasBranches(branches[0].steps) && AllHaveBranches(branches[1..]))
  }

  /** In a run where no foreach array was empty, a step tree preserves the message and every result
      key outside the keys it writes. */
  lemma {:induction false} Preserves(env: Env, steps: seq<Step>, h: History, c: Context)
    requires HasBranches(steps)
    requires var r := Interpret(env, steps, h, c); r.outcome.Done? && NoEmptyForeach(r.h)
    ensures Keeps(c, Interpret(env, steps, h, c).outcome.ctx, Writes(steps))
    decreases steps, 0
  {
    if steps != [] {
      var r := InterpretStep(env, steps[0], h, c);
      HistoryGrows(env, steps[1..], r.h, r.outcome.ctx);
      PrefixNoEmpty(r.h, Interpret(env, steps, h, c).h);
      StepPreserves(env, steps[0], h, c);
      Preserves(env, steps[1..], r.h, r.outcome.ctx);
    }
  }

  lemma PrefixNoEmpty(h: History, h': History)
    requires h <= h' && NoEmptyForeach(h')
    ensures NoEmptyForeach(h)
  {
    forall i | 0 <= i < |h| && h[i].Items?
      ensures h[i].n > 0
    {
      assert h'[i] == h[i];
    }
  }

  lemma {:induction false} StepPreserves(env: Env, s: Step, h: History, c: Context)
    requires StepHasBranches(s)
    requires var r := InterpretStep(env, s, h, c); r.outcome.Done? && NoEmptyForeach(r.h)
    ensures Keeps(c, InterpretStep(env, s, h, c).outcome.ctx, StepWrites(s))
    decreases s, 0
  {
    if IsCondition(s) {
      if CompareRule(env, c, s.condition.rule) {
        Preserves(env, s.condition.whenTrue, h, c);
      } else {
        Preserves(env, s.condition.whenFalse, h, c);
      }
    } else if IsParallel(s) {
      var all := InterpretBranches(env, s.parallel.branches, h, c);
      NoStopMeansDone(all.outcomes);
      BranchesPreserve(env, s.parallel.branches, h, c);
      MergeKeeps(c, DoneContexts(all.outcomes), StepWrites(s));
    } else if IsLoop(s) {
      if s.loop.mode == Foreach {
        ForeachPreserves(env, s, h, c);
      } else {
        LoopPreserves(env, s.loop, h, c, s.loop.maxIterations);
      }
    } else {
      LeafPreserves(env, s, h, c);
    }
  }

  lemma {:induction false} LeafPreserves(env: Env, s: Step, h: History, c: Context)
    requires RunLeaf(env, s, h, c).outcome.Done?
    ensures Keeps(c, RunLeaf(env, s, h, c).outcome.ctx, {s.id})
  {
    if s.kind != Approval {
      RetryPreserves(env, s, h, c, 0);
    }
  }

  lemma {:induction false} RetryPreserves(env: Env, s: Step, h: History, c: Context, attempt: nat)
    ensures var r := Retry(env, s, h, c, attempt); r.Some? ==> Keeps(c, r.value, {s.id})
    decreases s.retries - attempt
  {
    var r := Attempt(env, s, h, c, attempt);
    if r.None? && attempt < s.retries {
      RetryPreserves(env, s, h, c, attempt + 1);
    }
  }

  lemma {:induction false} BranchesPreserve(env: Env, branches: seq<BranchDef>, h: History, c: Context)
    requires AllHaveBranches(branches)
    requires var all := InterpretBranches(env, branches, h, c);
             NoEmptyForeach(all.h) && forall i :: 0 <= i < |all.outcomes| ==> all.outcomes[i].Done?
    ensures var all := InterpretBranches(env, branches, h, c);
            |all.outcomes| == |branches|
            && forall i :: 0 <= i < |branches| ==>
                 && Keeps(c, all.outcomes[i].ctx, Writes(branches[i].steps))
                 && Writes(branches[i].steps) <= BranchWrites(branches)
    decreases branches, 0
  {
    if branches != [] {
      var r := Interpret(env, branches[0].steps, h, c);
      var all := InterpretBranches(env, branches, h, c);
      var rest := InterpretBranches(env, branches[1..], r.h, c);
      assert all.outcomes[0] == r.outcome && all.outcomes[1..] == rest.outcomes;
      BranchesHistoryGrows(env, branches[1..], r.h, c);
      PrefixNoEmpty(r.h, all.h);
      Preserves(env, branches[0].steps, h, c);
      BranchesPreserve(env, branches[1..], r.h, c);
      forall i | 0 < i < |branches|
        ensures Keeps(c, all.outcomes[i].ctx, Writes(branches[i].steps))
        ensures Writes(branches[i].steps) <= BranchWrites(branches)
      {
        assert all.outcomes[i] == rest.outcomes[i - 1] && branches[i] == branches[1..][i - 1];
      }
    }
  }

  /** Merging a non-empty list of contexts that all keep c keeps c. */
  lemma {:induction false} MergeKeeps(c: Context, cs: seq<Context>, keys: set<string>)
    requires cs != [] && forall i :: 0 <= i < |cs| ==> Keeps(c, cs[i], keys)
    ensures Keeps(c, MergeContexts(cs), keys)
  {
    forall k | k !in keys
      ensures SameAt(c, MergeContexts(cs), k)
    {
      assert forall i :: 0 <= i < |cs| ==> SameAt(c, cs[i], k);
      AssignKeeps(c, cs, k);
    }
  }

  lemma {:induction false} AssignKeeps(c: Context, cs: seq<Context>, k: string)
    requires cs != [] && forall i :: 0 <= i < |cs| ==> SameAt(c, cs[i], k)
    ensures (k in c.results <==> k in AssignAll(cs)) && (k in c.results ==> c.results[k] == AssignAll(cs)[k])
    decreases |cs|
  {
    var n := |cs| - 1;
    assert SameAt(c, cs[n], k);
    if n > 0 {
      assert forall i :: 0 <= i < n ==> cs[..n][i] == cs[i];
      AssignKeeps(c, cs[..n], k);
    } else {
      assert cs[..n] == [];
    }
  }

  lemma {:induction false} ForeachPreserves(env: Env, s: Step, h: History, c: Context)
    requires IsLoop(s) && s.loop.mode == Foreach && HasBranches(s.loop.steps)
    requires var r := InterpretStep(env, s, h, c); r.outcome.Done? && NoEmptyForeach(r.h)
    ensures Keeps(c, InterpretStep(env, s, h, c).outcome.ctx, StepWrites(s))
    decreases s.loop, 1
  {
    var items := ForeachItems(env, s, c).value;
    var h1 := h + [Items(s.id, |items|)];
    var all := InterpretItems(env, s.loop.steps, h1, items);
    ItemsHistoryGrows(env, s.loop.steps, h1, items);
    assert all.h[|h|] == h1[|h|];
    NoStopMeansDone(all.outcomes);
    forall i | 0 <= i < |items|
      ensures Keeps(c, items[i], {s.id + ".item", s.id + ".index"})
    {
      var source := ReadPath(env, c, s.loop.sourcePath).items;
      assert items[i] == WithItem(c, s.id, source[i], i);
    }
    ItemsPreserve(env, s.loop.steps, h1, items, c, {s.id + ".item", s.id + ".index"});
    MergeKeeps(c, DoneContexts(all.outcomes), StepWrites(s));
  }

  lemma {:induction false} ItemsPreserve(env: Env, body: seq<Step>, h: History, items: seq<Context>, c: Context,
                                         extra: set<string>)
    requires HasBranches(body)
    requires forall i :: 0 <= i < |items| ==> Keeps(c, items[i], extra)
    requires var all := InterpretItems(env, body, h, items);
             NoEmptyForeach(all.h) && forall i :: 0 <= i < |all.outcomes| ==> all.outcomes[i].Done?
    ensures var all := InterpretItems(env, body, h, items);
            |all.outcomes| == |items|
            && forall i :: 0 <= i < |items| ==> Keeps(c, all.outcomes[i].ctx, extra + Writes(body))
    decreases body, 1, |items|
  {
    if items != [] {
      var r := Interpret(env, body, h, items[0]);
      var all := InterpretItems(env, body, h, items);
      assert all.outcomes[0] == r.outcome;
      var rest := InterpretItems(env, body, r.h, items[1..]);
      assert all.outcomes[1..] == rest.outcomes;
      ItemsHistoryGrows(env, body, r.h, items[1..]);
      PrefixNoEmpty(r.h, all.h);
      Preserves(env, body, h, items[0]);
      KeepsCompose(c, items[0], r.outcome.ctx, extra, Writes(body));
      ItemsPreserve(env, body, r.h, items[1..], c, extra);
      forall i | 0 < i < |items|
        ensures Keeps(c, all.outcomes[i].ctx, extra + Writes(body))
      {
        assert all.outcomes[i] == rest.outcomes[i - 1];
      }
    }
  }

  lemma KeepsCompose(a: Context, b: Context, c: Context, k1: set<string>, k2: set<string>)
    requires Keeps(a, b, k1) && Keeps(b, c, k2)
    ensures Keeps(a, c, k1 + k2)
  {
    forall k | k !in k1 + k2
      ensures SameAt(a, c, k)
    {
      assert SameAt(a, b, k) && SameAt(b, c, k);
    }
  }

  lemma {:induction false} LoopPreserves(env: Env, l: LoopBlock, h: History, c: Context, budget: nat)
    requires l.Loop? && l.mode != Foreach && HasBranches(l.steps)
    requires var r := InterpretLoop(env, l, h, c, budget); r.outcome.Done? && NoEmptyForeach(r.h)
    ensures Keeps(c, InterpretLoop(env, l, h, c, budget).outcome.ctx, Writes(l.steps))
    decreases l.steps, 1, budget
  {
    var r := Interpret(env, l.steps, h, c);
    if r.outcome.Done? && budget > 1 && !Decisive(env, l, r.outcome.ctx) {
      LoopHistoryGrows(env, l, r.h, r.outcome.ctx, budget - 1);
      PrefixNoEmpty(r.h, InterpretLoop(env, l, h, c, budget).h);
      LoopPreserves(env, l, r.h, r.outcome.ctx, budget - 1);
      Preserves(env, l.steps, h, c);
      KeepsCompose(c, r.outcome.ctx, InterpretLoop(env, l, h, c, budget).outcome.ctx, Writes(l.steps), Writes(l.steps));
    } else {
      Preserves(env, l.steps, h, c);
    }
  }

  /** The case Preserves excludes: over an empty array a foreach hands on the empty context, so the
      message and every result accumulated so far are lost. */
  lemma {:induction false} EmptyForeachErases(env: Env, s: Step, h: History, c: Context)
    requires IsLoop(s) && s.loop.mode == Foreach
    requires ReadPath(env, c, s.loop.sourcePath) == Arr([])
    ensures InterpretStep(env, s, h, c) == Run(h + [Items(s.id, 0)], Done(EMPTY_CONTEXT))
  {
    var items := ForeachItems(env, s, c).value;
    assert items == [];
    assert DoneContexts([]) == [];
  }

  /** The run of the body on the first item. */
  function FirstItemRun(env: Env, s: Step, h: History, c: Context): Run
    requires IsLoop(s) && ReadPath(env, c, s.loop.sourcePath).Arr?
    requires ReadPath(env, c, s.loop.sourcePath).items != []
  {
    var source := ReadPath(env, c, s.loop.sourcePath).items;
    var n := if |source| < ForeachLimit(s.loop) then |source| else ForeachLimit(s.loop);
    Interpret(env, s.loop.steps, h + [Items(s.id, n)], WithItem(c, s.id, source[0], 0))
  }

  /** Exactly when the message survives a foreach that finishes: its array is not empty, and the body keeps the
      message on the first item. */
  lemma {:induction false} ForeachKeepsMessageIff(env: Env, s: Step, h: History, c: Context)
    requires IsLoop(s) && s.loop.mode == Foreach && c.message != ""
    requires InterpretStep(env, s, h, c).outcome.Done?
    ensures ReadPath(env, c, s.loop.sourcePath).Arr?
    ensures InterpretStep(env, s, h, c).outcome.ctx.message == c.message <==>
            ReadPath(env, c, s.loop.sourcePath).items != []
            && var first := FirstItemRun(env, s, h, c); first.outcome.Done? && first.outcome.ctx.message == c.message
  {
    var runs := ForeachRuns(env, s, h, c);
    if runs != [] {
      assert runs[0] == FirstItemRun(env, s, h, c);
    }
  }

  /** The last of the runs whose results hold the key. */
  ghost predicate IsLastWith(runs: seq<Run>, i: nat, k: string) {
    && i < |runs| && runs[i].outcome.Done? && k in runs[i].outcome.ctx.results
    && forall j: nat :: i < j < |runs| ==> runs[j].outcome.Done? && k !in runs[j].outcome.ctx.results
  }

  /** The last map that holds a key decides its value. */
  lemma {:induction false} AssignLast(cs: seq<Context>, i: nat, k: string)
    requires i < |cs| && k in cs[i].results && forall j: nat :: i < j < |cs| ==> k !in cs[j].results
    ensures k in AssignAll(cs) && AssignAll(cs)[k] == cs[i].results[k]
    decreases |cs|
  {
    var n := |cs| - 1;
    if i < n {
      AssignLast(cs[..n], i, k);
    }
  }

  lemma {:induction false} LastHolder(cs: seq<Context>, k: string) returns (i: nat)
    requires k in AssignAll(cs)
    ensures i < |cs| && k in cs[i].results && forall j: nat :: i < j < |cs| ==> k !in cs[j].results
    decreases |cs|
  {
    var n := |cs| - 1;
    if k in cs[n].results {
      i := n;
    } else {
      i := LastHolder(cs[..n], k);
    }
  }

  /** Exactly when a result survives a foreach that finishes: the last item run that still holds its key holds its
      old value. A foreach over an empty array has no such run. */
  lemma {:induction false} ForeachKeepsResultIff(env: Env, s: Step, h: History, c: Context, k: string)
    returns (runs: seq<Run>)
    requires IsLoop(s) && s.loop.mode == Foreach && k in c.results
    requires InterpretStep(env, s, h, c).outcome.Done?
    ensures AreForeachRuns(env, s, h, c, runs)
    ensures var out := InterpretStep(env, s, h, c).outcome.ctx;
            k in out.results && out.results[k] == c.results[k] <==>
            exists i: nat :: IsLastWith(runs, i, k) && runs[i].outcome.ctx.results[k] == c.results[k]
  {
    runs := ForeachRuns(env, s, h, c);
    var cs := Contexts(runs);
    if k in AssignAll(cs) {
      var i := LastHolder(cs, k);
      AssignLast(cs, i, k);
      assert IsLastWith(runs, i, k);
    }
    forall i: nat | IsLastWith(runs, i, k)
      ensures k in AssignAll(cs) && AssignAll(cs)[k] == runs[i].outcome.ctx.results[k]
    {
      AssignLast(cs, i, k);
    }
  }

  /** It also happens inside: the body's own foreach is over an empty array. */
  lemma {:induction false} InnerForeachErases(env: Env, s: Step, inner: Step, h: History, c: Context, item: Value)
    requires IsLoop(s) && s.loop.mode == Foreach && s.loop.steps == [inner]
    requires ReadPath(env, c, s.loop.sourcePath) == Arr([item])
    requires IsLoop(inner) && inner.loop.mode == Foreach
    requires ReadPath(env, WithItem(c, s.id, item, 0), inner.loop.sourcePath) == Arr([])
    ensures InterpretStep(env, s, h, c) == Run(h + [Items(s.id, 1), Items(inner.id, 0)], Done(EMPTY_CONTEXT))
  {
    var first, h1 := WithItem(c, s.id, item, 0), h + [Items(s.id, 1)];
    var items := ForeachItems(env, s, c).value;
    assert items == [first];
    OneInner(env, inner, h1, first);
    assert h1 + [Items(inner.id, 0)] == h + [Items(s.id, 1), Items(inner.id, 0)];
    var all := InterpretItems(env, [inner], h1, items);
    assert all.outcomes[1..] == [];
    assert FirstStop(all.outcomes).None?;
    OneEmptyMerges();
  }

  lemma OneStep(env: Env, s: Step, h: History, c: Context)
    ensures Interpret(env, [s], h, c) == InterpretStep(env, s, h, c)
  {
    assert [s][1..] == [];
  }

  lemma OneInner(env: Env, inner: Step, h: History, c: Context)
    requires IsLoop(inner) && inner.loop.mode == Foreach && ReadPath(env, c, inner.loop.sourcePath) == Arr([])
    ensures InterpretItems(env, [inner], h, [c]) == Batch(h + [Items(inner.id, 0)], [Done(EMPTY_CONTEXT)])
  {
    EmptyForeachErases(env, inner, h, c);
    OneStep(env, inner, h, c);
    var r := InterpretStep(env, inner, h, c);
    assert [c][1..] == [];
    assert InterpretItems(env, [inner], r.h, []) == Batch(r.h, []);
  }

  lemma OneEmptyMerges()
    ensures DoneContexts([Done(EMPTY_CONTEXT)]) == [EMPTY_CONTEXT] && MergeContexts([EMPTY_CONTEXT]) == EMPTY_CONTEXT
  {
    var cs := [EMPTY_CONTEXT];
    assert cs[..0] == [] && cs[1..] == [];
    assert AssignAll(cs) == map[] + EMPTY_CONTEXT.results == map[];
    assert JoinTexts(cs) == "";
  }
}
