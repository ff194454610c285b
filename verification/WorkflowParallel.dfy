/**
  Parallel nodes: with unique step ids the branches write disjoint keys, and if those keys are
  absent from the incoming results the merged results do not depend on the order of the branches.
 */
module WorkflowParallel {
  import opened WorkflowModel
  import opened WorkflowCompiler
  import opened WorkflowProperties

  /** All step ids of a definition, in the order inspectWorkflowSteps collects them. */
  function Ids(steps: seq<Step>): seq<string>
    decreases steps, 0
  {
    if steps == [] then [] else StepIds(steps[0]) + Ids(steps[1..])
  }

  function StepIds(s: Step): seq<string>
    decreases s, 0
  {
    [s.id]
    + ConditionIds(s.condition)
    + ParallelIds(s.parallel)
    + LoopIds(s.loop)
  }

  function ConditionIds(c: ConditionBlock): seq<string>
    decreases c, 0
  {
    if c.Condition? then Ids(c.whenTrue) + Ids(c.whenFalse) else []
  }

  function ParallelIds(p: ParallelBlock): seq<string>
    decreases p, 0
  {
    if p.Parallel? then BranchIds(p.branches) else []
  }

  function LoopIds(l: LoopBlock): seq<string>
    decreases l, 0
  {
    if l.Loop? then Ids(l.steps) else []
  }

  function BranchIds(branches: seq<BranchDef>): seq<string>
    decreases branches, 0
  {
    if branches == [] then [] else Ids(branches[0].steps) + BranchIds(branches[1..])
  }

  predicate Unique<T(==)>(s: seq<T>) {
    forall i, j :: 0 <= i < j < |s| ==> s[i] != s[j]
  }

  /** workflowIdSchema admits no dot, so an id never collides with an item or index key. */
  predicate Plain(id: string) {
    '.' !in id
  }

  predicate AllPlain(ids: seq<string>) {
    forall id :: id in ids ==> Plain(id)
  }

  /** The keys a step with this id can write. */
  function KeysOf(id: string): set<string> {
    {id, id + ".item", id + ".index"}
  }

  ghost predicate KeysFrom(keys: set<string>, ids: seq<string>) {
    forall k :: k in keys ==> exists id :: id in ids && k in KeysOf(id)
  }

  lemma {:induction false} WritesFromIds(steps: seq<Step>)
    ensures KeysFrom(Writes(steps), Ids(steps))
    decreases steps, 0
  {
    if steps != [] {
      StepWritesFromIds(steps[0]);
      WritesFromIds(steps[1..]);
      KeysFromConcat(StepWrites(steps[0]), StepIds(steps[0]), Writes(steps[1..]), Ids(steps[1..]));
    }
  }

  lemma KeysFromConcat(k1: set<string>, ids1: seq<string>, k2: set<string>, ids2: seq<string>)
    requires KeysFrom(k1, ids1) && KeysFrom(k2, ids2)
    ensures KeysFrom(k1 + k2, ids1 + ids2)
  {
    forall k | k in k1 + k2
      ensures exists id :: id in ids1 + ids2 && k in KeysOf(id)
    {
      if k in k1 {
        var id :| id in ids1 && k in KeysOf(id);
        assert id in ids1 + ids2;
      } else {
        var id :| id in ids2 && k in KeysOf(id);
        assert id in ids1 + ids2;
      }
    }
  }

  lemma KeysFromWiden(keys: set<string>, ids: seq<string>, more: seq<string>)
    requires KeysFrom(keys, ids) && forall id :: id in ids ==> id in more
    ensures KeysFrom(keys, more)
  {
    forall k | k in keys
      ensures exists id :: id in more && k in KeysOf(id)
    {
      var id :| id in ids && k in KeysOf(id);
      assert id in more;
    }
  }

  lemma {:induction false} StepWritesFromIds(s: Step)
    ensures KeysFrom(StepWrites(s), StepIds(s))
    decreases s, 0
  {
    assert s.id in [s.id];
    assert s.id in StepIds(s);
    if IsCondition(s) {
      WritesFromIds(s.condition.whenTrue);
      WritesFromIds(s.condition.whenFalse);
      var ids := Ids(s.condition.whenTrue) + Ids(s.condition.whenFalse);
      KeysFromConcat(Writes(s.condition.whenTrue), Ids(s.condition.whenTrue),
                     Writes(s.condition.whenFalse), Ids(s.condition.whenFalse));
      assert forall id :: id in ids ==> id in StepIds(s);
      KeysFromWiden(StepWrites(s), ids, StepIds(s));
    } else if IsParallel(s) {
      BranchWritesFromIds(s.parallel.branches);
      assert forall id :: id in BranchIds(s.parallel.branches) ==> id in StepIds(s);
      KeysFromWiden(StepWrites(s), BranchIds(s.parallel.branches), StepIds(s));
    } else if IsLoop(s) {
      WritesFromIds(s.loop.steps);
      var own := if s.loop.mode == Foreach then {s.id + ".item", s.id + ".index"} else {};
      assert KeysFrom(own, [s.id]) by {
        forall k | k in own
          ensures exists id :: id in [s.id] && k in KeysOf(id)
        {
          assert s.id in [s.id] && k in KeysOf(s.id);
        }
      }
      KeysFromConcat(own, [s.id], Writes(s.loop.steps), Ids(s.loop.steps));
      KeysFromWiden(StepWrites(s), [s.id] + Ids(s.loop.steps), StepIds(s));
    } else {
      assert s.id in KeysOf(s.id);
    }
  }

  lemma {:induction false} BranchWritesFromIds(branches: seq<BranchDef>)
    ensures KeysFrom(BranchWrites(branches), BranchIds(branches))
    decreases branches, 0
  {
    if branches != [] {
      WritesFromIds(branches[0].steps);
      BranchWritesFromIds(branches[1..]);
      KeysFromConcat(Writes(branches[0].steps), Ids(branches[0].steps), BranchWrites(branches[1..]),
                     BranchIds(branches[1..]));
    }
  }

  /** Different plain ids own different keys. */
  lemma KeysApart(a: string, b: string, k: string)
    requires Plain(a) && Plain(b) && k in KeysOf(a) && k in KeysOf(b)
    ensures a == b
  {
    Dotted(a, ".item");
    Dotted(a, ".index");
    Dotted(b, ".item");
    Dotted(b, ".index");
    assert |k| >= |a| && k[..|a|] == a && (k == a || k[|a|] == '.');
    assert |k| >= |b| && k[..|b|] == b && (k == b || k[|b|] == '.');
    PlainPrefix(a, k);
    PlainPrefix(b, k);
    assert |a| == |b|;
  }

  lemma PlainPrefix(id: string, k: string)
    requires Plain(id) && |k| >= |id| && k[..|id|] == id
    ensures forall i :: 0 <= i < |id| ==> k[i] != '.'
  {
    assert forall i :: 0 <= i < |id| ==> k[i] == id[i];
  }

  lemma Dotted(id: string, suffix: string)
    requires suffix != "" && suffix[0] == '.'
    ensures (id + suffix)[|id|] == '.' && (id + suffix)[..|id|] == id
  {}

  lemma DisjointIdsDisjointKeys(k1: set<string>, ids1: seq<string>, k2: set<string>, ids2: seq<string>)
    requires KeysFrom(k1, ids1) && KeysFrom(k2, ids2) && AllPlain(ids1) && AllPlain(ids2)
    requires forall id :: id in ids1 ==> id !in ids2
    ensures k1 !! k2
  {
    forall k | k in k1 && k in k2
      ensures false
    {
      var a :| a in ids1 && k in KeysOf(a);
      var b :| b in ids2 && k in KeysOf(b);
      KeysApart(a, b, k);
    }
  }

  /** The branches of a definition with unique plain ids write pairwise disjoint keys. */
  lemma {:induction false} BranchesApart(branches: seq<BranchDef>, i: nat, j: nat)
    requires Unique(BranchIds(branches)) && AllPlain(BranchIds(branches))
    requires i < j < |branches|
    ensures Writes(branches[i].steps) !! Writes(branches[j].steps)
    decreases |branches|
  {
    var first, rest := Ids(branches[0].steps), BranchIds(branches[1..]);
    var all := BranchIds(branches);
    assert all == first + rest;
    assert forall m :: 0 <= m < |rest| ==> all[|first| + m] == rest[m];
    assert AllPlain(rest) by {
      assert forall id :: id in rest ==> id in all;
    }
    if i == 0 {
      assert AllPlain(first) by {
        assert forall id :: id in first ==> id in all;
      }
      WritesFromIds(branches[0].steps);
      WritesFromIds(branches[j].steps);
      IdsOfBranch(branches[1..], j - 1);
      KeysFromWiden(Writes(branches[j].steps), Ids(branches[j].steps), rest);
      forall id | id in first
        ensures id !in rest
      {
        var m :| 0 <= m < |first| && first[m] == id;
        assert all[m] == id;
      }
      DisjointIdsDisjointKeys(Writes(branches[0].steps), first, Writes(branches[j].steps), rest);
    } else {
      BranchesApart(branches[1..], i - 1, j - 1);
    }
  }

  lemma {:induction false} IdsOfBranch(branches: seq<BranchDef>, i: nat)
    requires i < |branches|
    ensures forall id :: id in Ids(branches[i].steps) ==> id in BranchIds(branches)
    decreases i
  {
    if i > 0 {
      IdsOfBranch(branches[1..], i - 1);
      assert branches[i] == branches[1..][i - 1];
    }
  }

  // ---------------------------------------------------------------- merging in any order

  /** Two contexts agree on every key both hold. */
  ghost predicate Agree(a: Context, b: Context) {
    forall k :: k in a.results && k in b.results ==> a.results[k] == b.results[k]
  }

  ghost predicate AllAgree(cs: seq<Context>) {
    forall i, j :: 0 <= i < |cs| && 0 <= j < |cs| ==> Agree(cs[i], cs[j])
  }

  /** The merge of agreeing contexts is their union, whatever the order. */
  lemma {:induction false} AssignIsUnion(cs: seq<Context>)
    requires AllAgree(cs)
    ensures forall k :: k in AssignAll(cs) <==> exists i :: 0 <= i < |cs| && k in cs[i].results
    ensures forall i, k :: 0 <= i < |cs| && k in cs[i].results ==> AssignAll(cs)[k] == cs[i].results[k]
    decreases |cs|
  {
    if cs != [] {
      var n := |cs| - 1;
      var front := cs[..n];
      assert forall i :: 0 <= i < n ==> front[i] == cs[i];
      assert AllAgree(front) by {
        forall i, j | 0 <= i < n && 0 <= j < n
          ensures Agree(front[i], front[j])
        {
          assert Agree(cs[i], cs[j]);
        }
      }
      AssignIsUnion(front);
      var all := AssignAll(cs);
      assert all == AssignAll(front) + cs[n].results;
      forall i, k | 0 <= i < |cs| && k in cs[i].results
        ensures k in all && all[k] == cs[i].results[k]
      {
        assert Agree(cs[i], cs[n]);
        if i < n {
          assert front[i] == cs[i];
          assert k in AssignAll(front) && AssignAll(front)[k] == front[i].results[k];
        }
      }
      forall k | k in all
        ensures exists i :: 0 <= i < |cs| && k in cs[i].results
      {
        if k in cs[n].results {
        } else {
          var i :| 0 <= i < |front| && k in front[i].results;
          assert k in cs[i].results;
        }
      }
    }
  }

  lemma {:induction false} AssignOrderFree(cs: seq<Context>, ds: seq<Context>)
    requires AllAgree(cs) && multiset(cs) == multiset(ds)
    ensures AssignAll(cs) == AssignAll(ds)
  {
    forall i | 0 <= i < |ds|
      ensures ds[i] in cs
    {
      assert ds[i] in multiset(ds);
    }
    forall i | 0 <= i < |cs|
      ensures cs[i] in ds
    {
      assert cs[i] in multiset(cs);
    }
    assert AllAgree(ds);
    AssignIsUnion(cs);
    AssignIsUnion(ds);
    forall k | k in AssignAll(cs)
      ensures k in AssignAll(ds) && AssignAll(ds)[k] == AssignAll(cs)[k]
    {
      var i :| 0 <= i < |cs| && k in cs[i].results;
      var j :| 0 <= j < |ds| && ds[j] == cs[i];
      assert k in ds[j].results;
    }
    forall k | k in AssignAll(ds)
      ensures k in AssignAll(cs)
    {
      var i :| 0 <= i < |ds| && k in ds[i].results;
      var j :| 0 <= j < |cs| && cs[j] == ds[i];
      assert k in cs[j].results;
    }
  }

  /** If no key the branches may write is in the incoming results, every order of merging the
      branch outputs of a finished parallel node gives the same results map: the incoming map
      plus every branch's additions. */
  lemma {:induction false} ParallelOrderFree(env: Env, s: Step, h: History, c: Context, shuffled: seq<Context>)
    requires IsParallel(s) && StepHasBranches(s)
    requires Unique(BranchIds(s.parallel.branches)) && AllPlain(BranchIds(s.parallel.branches))
    requires BranchWrites(s.parallel.branches) !! c.results.Keys
    requires var r := InterpretStep(env, s, h, c); r.outcome.Done? && NoEmptyForeach(r.h)
    requires multiset(shuffled) == multiset(DoneContexts(InterpretBranches(env, s.parallel.branches, h, c).outcomes))
    ensures var outputs := DoneContexts(InterpretBranches(env, s.parallel.branches, h, c).outcomes);
            var merged := InterpretStep(env, s, h, c).outcome.ctx.results;
            && AssignAll(shuffled) == merged
            && (forall k :: k in c.results ==> k in merged && merged[k] == c.results[k])
            && (forall i, k :: 0 <= i < |outputs| && k in outputs[i].results ==>
                  k in merged && merged[k] == outputs[i].results[k])
            && (forall k :: k in merged ==> exists i :: 0 <= i < |outputs| && k in outputs[i].results)
  {
    var branches := s.parallel.branches;
    var all := InterpretBranches(env, branches, h, c);
    var outputs := DoneContexts(all.outcomes);
    NoStopMeansDone(all.outcomes);
    BranchesPreserve(env, branches, h, c);
    forall i, j | 0 <= i < |outputs| && 0 <= j < |outputs|
      ensures Agree(outputs[i], outputs[j])
    {
      assert outputs[i] == all.outcomes[i].ctx && outputs[j] == all.outcomes[j].ctx;
      OutputsAgree(branches, c, i, j, outputs[i], outputs[j]);
    }
    AssignOrderFree(outputs, shuffled);
    AssignIsUnion(outputs);
    forall k | k in c.results
      ensures k in AssignAll(outputs) && AssignAll(outputs)[k] == c.results[k]
    {
      assert outputs[0] == all.outcomes[0].ctx;
      assert Writes(branches[0].steps) <= BranchWrites(branches);
      assert k !in Writes(branches[0].steps);
      assert SameAt(c, outputs[0], k);
    }
  }

  lemma OutputsAgree(branches: seq<BranchDef>, c: Context, i: nat, j: nat, a: Context, b: Context)
    requires i < |branches| && j < |branches|
    requires i == j ==> a == b
    requires Unique(BranchIds(branches)) && AllPlain(BranchIds(branches))
    requires Keeps(c, a, Writes(branches[i].steps)) && Keeps(c, b, Writes(branches[j].steps))
    requires Writes(branches[i].steps) <= BranchWrites(branches) && Writes(branches[j].steps) <= BranchWrites(branches)
    requires BranchWrites(branches) !! c.results.Keys
    ensures Agree(a, b)
  {
    if i < j {
      BranchesApart(branches, i, j);
    } else if j < i {
      BranchesApart(branches, j, i);
    }
    if i != j {
      forall k | k in a.results && k in b.results
        ensures a.results[k] == b.results[k]
      {
        assert k !in Writes(branches[j].steps) ==> SameAt(c, b, k);
        assert k !in Writes(branches[i].steps) ==> SameAt(c, a, k);
      }
    }
  }
}
