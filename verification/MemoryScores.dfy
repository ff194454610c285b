/**
  The confidence of the chunk rows (memory/index.ts): it is copied from the memory when its index is built and when
  an update changes it, but not when the memory is reinforced.
 */
module MemoryScores {

  import opened TextChunks
  import opened MemoryChunks
  import opened MemoryModel
  import opened MemoryMaintenance
  import opened MemoryMaintenanceTheorem
  import opened MemoryRuns

  /** The chunk rows of the memory, if there are any, carry its confidence. */
  predicate Graded(s: Store, id: Id)
    requires id in s.items
  {
    ChunksOf(s, id) != [] ==> ScoreOf(s, id) == Some(s.items[id].confidence)
  }

  ghost predicate AllGraded(s: Store) {
    s.chunks.Keys <= s.items.Keys && forall id :: id in s.items ==> Graded(s, id)
  }

  /** A create that raises the confidence of an indexed memory. */
  predicate Outgrows(s: Store, op: Op, texts: Texts) {
    && op.Creating? && Refuse(op.input, op.actor).None? && op.found.Some? && op.found.value in s.items
    && ChunksOf(s, op.found.value) != [] && NewConfidence(op.input, texts) > s.items[op.found.value].confidence
  }

  lemma {:induction false} HydrateGraded(s: Store, ids: seq<Id>, texts: Texts)
    requires AllGraded(s) && forall i: nat :: i < |ids| ==> ids[i] in s.items
    ensures AllGraded(Hydrate(s, ids, texts))
    decreases |ids|
  {
    if ids != [] {
      HydrateGraded(s, ids[..|ids| - 1], texts);
    }
  }

  lemma GetGraded(s: Store, id: Id, actor: Actor, scene: Scene, texts: Texts)
    requires AllGraded(s)
    ensures AllGraded(Get(s, id, actor, scene, texts).0)
  {}

  /** Reading a row builds no index where there is one. */
  lemma GetKeepsWrong(s: Store, id: Id, actor: Actor, scene: Scene, texts: Texts)
    requires id in s.items && !Graded(s, id)
    ensures !AllGraded(Get(s, id, actor, scene, texts).0)
  {
    assert !Graded(Get(s, id, actor, scene, texts).0, id);
  }

  lemma WrittenGraded(s: Store, id: Id, actor: Actor, next: Item)
    requires AllGraded(s) && id in s.items
    ensures AllGraded(Written(s, id, actor, s.items[id], next))
  {
    var t := Written(s, id, actor, s.items[id], next);
    forall other | other in t.items ensures Graded(t, other) {
      assert Graded(s, other);
    }
  }

  lemma UpdateGraded(s: Store, id: Id, actor: Actor, patch: Patch, now: int, texts: Texts)
    requires AllGraded(s)
    ensures AllGraded(Update(s, id, actor, patch, now, texts).0)
  {
    var (s1, memory) := Get(s, id, actor, NO_SCENE, texts);
    GetGraded(s, id, actor, NO_SCENE, texts);
    if memory.Some? && !(memory.value.scope == Organization && !actor.admin) {
      var next := Patched(memory.value, patch, now, texts);
      WrittenGraded(s1, id, actor, next);
      GetGraded(Written(s1, id, actor, memory.value, next), id, actor, NO_SCENE, texts);
    }
  }

  lemma WipedGraded(s: Store, id: Id, actor: Actor, row: Item, now: int)
    requires AllGraded(s) && id in s.items
    ensures AllGraded(Wiped(s, id, actor, row, now))
  {
    var t := Wiped(s, id, actor, row, now);
    forall other | other in t.items ensures Graded(t, other) {
      assert Graded(s, other);
    }
  }

  lemma ForgetGraded(s: Store, id: Id, actor: Actor, now: int, texts: Texts)
    requires AllGraded(s)
    ensures AllGraded(Forget(s, id, actor, now, texts).0)
  {
    var (s1, memory) := Get(s, id, actor, NO_SCENE, texts);
    GetGraded(s, id, actor, NO_SCENE, texts);
    if memory.Some? && !(memory.value.scope == Organization && !actor.admin) {
      WipedGraded(s1, id, actor, memory.value, now);
      GetGraded(Wiped(s1, id, actor, memory.value, now), id, actor, NO_SCENE, texts);
    }
  }

  lemma StoredGraded(s: Store, op: Op, texts: Texts)
    requires Enabled(s, op) && op.Creating? && AllGraded(s) && Refuse(op.input, op.actor).None?
    ensures var t := Stored(s, op.input, op.actor, op.found, op.id, op.now, texts);
            if Outgrows(s, op, texts) then op.found.value in t.items && !Graded(t, op.found.value) else AllGraded(t)
  {
    var t := Stored(s, op.input, op.actor, op.found, op.id, op.now, texts);
    forall other | other in t.items && (op.found.Some? ==> other != op.found.value) ensures Graded(t, other) {
      assert other in s.items ==> Graded(s, other);
    }
    if op.found.Some? {
      assert Graded(s, op.found.value);
    }
  }

  lemma CreateGraded(s: Store, op: Op, texts: Texts)
    requires Enabled(s, op) && op.Creating? && AllGraded(s)
    ensures AllGraded(Apply(s, op, texts)) <==> !Outgrows(s, op, texts)
  {
    if Refuse(op.input, op.actor).None? {
      var t := Stored(s, op.input, op.actor, op.found, op.id, op.now, texts);
      var id, scene := op.found.Or(op.id), Scene(op.input.thread, op.input.workflow);
      StoredGraded(s, op, texts);
      if Outgrows(s, op, texts) {
        GetKeepsWrong(t, id, op.actor, scene, texts);
      } else {
        GetGraded(t, id, op.actor, scene, texts);
      }
    }
  }

  lemma {:induction false} TouchGraded(s: Store, ids: seq<Id>, now: int)
    requires (forall i: nat :: i < |ids| ==> ids[i] in s.items) && AllGraded(s)
    ensures AllGraded(Touch(s, ids, now))
    decreases |ids|
  {
    if ids != [] {
      var n := |ids| - 1;
      TouchGraded(s, ids[..n], now);
      var before, after := Touch(s, ids[..n], now), Touch(s, ids, now);
      forall id | id in after.items ensures Graded(after, id) {
        assert Graded(before, id);
      }
    }
  }

  lemma RetrieveGraded(s: Store, listed: seq<Id>, chosen: seq<Id>, now: int, texts: Texts)
    requires forall i: nat :: i < |listed| ==> listed[i] in s.items
    requires forall i: nat :: i < |chosen| ==> chosen[i] in listed
    requires AllGraded(s)
    ensures AllGraded(Retrieve(s, listed, chosen, now, texts))
  {
    var t := Hydrate(s, listed, texts);
    HydrateGraded(s, listed, texts);
    assert forall i: nat :: i < |chosen| ==> chosen[i] in t.items;
    TouchGraded(t, chosen, now);
  }

  lemma MaintainGraded(s: Store, ids: seq<Id>, limit: int, run: Run, texts: Texts)
    requires Listed(s, run, limit, ids) && AllGraded(s)
    ensures AllGraded(Maintain(s, ids, run, texts).store)
  {
    var visible := VisibleIds(s, ids, run.actor);
    var hydrated, t := Hydrate(s, visible, texts), Maintain(s, ids, run, texts).store;
    HydrateGraded(s, visible, texts);
    TablesKeepRows(s, ids, run, texts);
    forall id | id in t.items ensures Graded(t, id) {
      var row := RowsAreOnlyMetered(s, ids, limit, run, texts, id);
      assert t.items[id] == row;
      assert Graded(hydrated, id);
    }
  }

  /** Every operation leaves the chunk rows with the confidence of their memory, exactly unless it is such a create. */
  lemma {:induction false} GradedStep(s: Store, op: Op, texts: Texts)
    requires Enabled(s, op) && AllGraded(s)
    ensures AllGraded(Apply(s, op, texts)) <==> !Outgrows(s, op, texts)
  {
    match op
    case Creating(_, _, _, _, _) => CreateGraded(s, op, texts);
    case Updating(id, actor, patch, now) => UpdateGraded(s, id, actor, patch, now, texts);
    case Forgetting(id, actor, now) => ForgetGraded(s, id, actor, now, texts);
    case Reading(id, actor, scene) => GetGraded(s, id, actor, scene, texts);
    case Retrieving(_, _, listed, chosen, now) => RetrieveGraded(s, listed, chosen, now, texts);
    case Maintaining(ids, limit, run) => MaintainGraded(s, ids, limit, run, texts);
  }

  ghost predicate GradedThroughout(states: seq<Store>, n: nat)
    requires n < |states|
  {
    forall i: nat :: i <= n ==> AllGraded(states[i])
  }

  ghost predicate NeverOutgrows(states: seq<Store>, ops: seq<Op>, texts: Texts, n: nat)
    requires n <= |ops| && |states| == |ops| + 1
  {
    forall i: nat :: i < n ==> !Outgrows(states[i], ops[i], texts)
  }

  /** Over a run the chunk rows carry the confidence of their memory throughout exactly if no create in it raises the
      confidence of an indexed memory. */
  lemma {:induction false} GradedRuns(states: seq<Store>, ops: seq<Op>, texts: Texts, n: nat)
    requires IsRun(states, ops, texts) && AllGraded(states[0]) && n <= |ops|
    ensures GradedThroughout(states, n) <==> NeverOutgrows(states, ops, texts, n)
  {
    if n > 0 {
      GradedRuns(states, ops, texts, n - 1);
      if GradedThroughout(states, n - 1) {
        GradedStep(states[n - 1], ops[n - 1], texts);
      }
      assert GradedThroughout(states, n) <==> GradedThroughout(states, n - 1) && AllGraded(states[n]);
      assert NeverOutgrows(states, ops, texts, n)
             <==> NeverOutgrows(states, ops, texts, n - 1) && !Outgrows(states[n - 1], ops[n - 1], texts);
    }
  }

  /** The same content, stored with confidence 40 and then again with 90. */
  function Twice(input: Input, actor: Actor, id: Id, unused: Id): seq<Op> {
    [Creating(input.(confidence := Some(40.0)), actor, None, id, 0),
     Creating(input.(confidence := Some(90.0)), actor, Some(id), unused, 1)]
  }

  lemma FirstOfTwo(input: Input, actor: Actor, id: Id, texts: Texts) returns (s1: Store)
    requires Refuse(input, actor).None? && !Injected(input, texts) && input.status == None
             && input.confidence == Some(40.0)
    requires IndexOf(NewItem(input, actor, 0, texts), texts) != []
    ensures s1 == Apply(EMPTY, Creating(input, actor, None, id, 0), texts) && ChunksOf(s1, id) != []
    ensures s1.items == map[id := NewItem(input, actor, 0, texts)] && s1.items[id].confidence == 40.0
  {
    s1 := CreatedOnce(EMPTY, input, actor, id, 0, texts);
    InsertIsIndexed(input, actor, id, texts);
    assert ClampScore(40.0) == 40.0;
  }

  lemma SecondOfTwo(s1: Store, input: Input, actor: Actor, id: Id, unused: Id, texts: Texts)
    requires Refuse(input, actor).None? && !Injected(input, texts) && input.confidence == Some(90.0)
    requires id != unused && s1.items.Keys == {id} && SameContent(s1.items[id], actor.org, input.json)
    requires s1.items[id].status != Forgotten && s1.items[id].confidence == 40.0 && ChunksOf(s1, id) != []
    ensures var op := Creating(input, actor, Some(id), unused, 1); Enabled(s1, op) && Outgrows(s1, op, texts)
  {
    assert ClampScore(90.0) == 90.0;
  }

  lemma SameIndex(input: Input, actor: Actor, confidence: real, texts: Texts)
    ensures var other := input.(confidence := Some(confidence));
            && Injected(other, texts) == Injected(input, texts) && Refuse(other, actor) == Refuse(input, actor)
            && IndexOf(NewItem(other, actor, 0, texts), texts) == IndexOf(NewItem(input, actor, 0, texts), texts)
  {}

  /** It really happens: storing an indexable content again with more confidence leaves its chunk rows behind. */
  lemma ReinforcingOutgrows(input: Input, actor: Actor, id: Id, unused: Id, texts: Texts) returns (states: seq<Store>)
    requires id != unused && Refuse(input, actor).None? && !Injected(input, texts) && input.status == None
    requires IndexOf(NewItem(input, actor, 0, texts), texts) != []
    ensures IsRun(states, Twice(input, actor, id, unused), texts) && states[0] == EMPTY
    ensures AllGraded(states[0]) && AllGraded(states[1]) && !AllGraded(states[2])
  {
    var ops := Twice(input, actor, id, unused);
    SameIndex(input, actor, 40.0, texts);
    SameIndex(input, actor, 90.0, texts);
    var s1 := FirstOfTwo(ops[0].input, actor, id, texts);
    SecondOfTwo(s1, ops[1].input, actor, id, unused, texts);
    var s2 := Apply(s1, ops[1], texts);
    GradedStep(EMPTY, ops[0], texts);
    GradedStep(s1, ops[1], texts);
    TwoSteps(EMPTY, s1, s2, ops, texts);
    states := [EMPTY, s1, s2];
  }

  lemma TwoSteps(s0: Store, s1: Store, s2: Store, ops: seq<Op>, texts: Texts)
    requires |ops| == 2 && Enabled(s0, ops[0]) && s1 == Apply(s0, ops[0], texts)
    requires Enabled(s1, ops[1]) && s2 == Apply(s1, ops[1], texts)
    ensures IsRun([s0, s1, s2], ops, texts)
  {}

  /** A memory that is created is indexed at once. */
  lemma InsertIsIndexed(input: Input, actor: Actor, id: Id, texts: Texts)
    requires Refuse(input, actor).None? && NewItem(input, actor, 0, texts).status != Forgotten
    ensures var t := Create(EMPTY, input, actor, None, id, 0, texts).0;
            ChunksOf(t, id) == IndexOf(NewItem(input, actor, 0, texts), texts)
  {
    var row := NewItem(input, actor, 0, texts);
    assert Visible(row, actor, Scene(input.thread, input.workflow));
  }
}
