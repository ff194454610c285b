/**
  Whole runs of the memory store: any sequence of create, update, forget, retrieve, read and maintain, each
  atomic. What a forgotten memory leaves behind, when a content is stored twice, what the index of a
  row may be, and that organizations do not reach each other's memories.
 */
module MemoryRuns {

  import opened TextChunks
  import opened MemoryChunks
  import opened MemoryModel
  import opened MemoryMaintenance
  import opened MemoryMaintenanceTheorem

  datatype Op =
    | Creating(input: Input, actor: Actor, found: Option<Id>, id: Id, now: int)
    | Updating(id: Id, actor: Actor, patch: Patch, now: int)
    | Forgetting(id: Id, actor: Actor, now: int)
    | Reading(id: Id, actor: Actor, scene: Scene)
    | Retrieving(actor: Actor, scene: Scene, listed: seq<Id>, chosen: seq<Id>, now: int)
    | Maintaining(ids: seq<Id>, limit: int, run: Run)
  {
    function Who(): Actor {
      if Maintaining? then run.actor else actor
    }
  }

  /** The operation with these answers of the database can happen. */
  ghost predicate Enabled(s: Store, op: Op) {
    match op
    case Creating(input, actor, found, id, now) => IsLookup(s, actor.org, input.json, found) && id !in s.items
    case Updating(_, _, _, _) => true
    case Forgetting(_, _, _) => true
    case Reading(_, _, _) => true
    case Retrieving(actor, scene, listed, chosen, now) =>
      && (forall i: nat :: i < |listed| ==> listed[i] in s.items && Visible(s.items[listed[i]], actor, scene))
      && (forall i: nat :: i < |chosen| ==> chosen[i] in listed)
    case Maintaining(ids, limit, run) => Listed(s, run, limit, ids)
  }

  ghost function Apply(s: Store, op: Op, texts: Texts): Store
    requires Enabled(s, op)
  {
    match op
    case Creating(input, actor, found, id, now) => Create(s, input, actor, found, id, now, texts).0
    case Updating(id, actor, patch, now) => Update(s, id, actor, patch, now, texts).0
    case Forgetting(id, actor, now) => Forget(s, id, actor, now, texts).0
    case Reading(id, actor, scene) => Get(s, id, actor, scene, texts).0
    case Retrieving(actor, scene, listed, chosen, now) => Retrieve(s, listed, chosen, now, texts)
    case Maintaining(ids, limit, run) => Maintain(s, ids, run, texts).store
  }

  /** The states of a run, the first one included. */
  ghost predicate IsRun(states: seq<Store>, ops: seq<Op>, texts: Texts) {
    && |states| == |ops| + 1
    && forall i: nat :: i < |ops| ==> Enabled(states[i], ops[i]) && states[i + 1] == Apply(states[i], ops[i], texts)
  }

  /** JSON.parse('null') is null. */
  predicate ParsesNull(texts: Texts) {
    texts.parse(NULL_JSON) == NoContent
  }

  // ---------------------------------------------------------------- what an operation does to a row

  predicate SameTexts(a: Item, b: Item) {
    && a.org == b.org && a.user == b.user && a.scope == b.scope && a.kind == b.kind
    && a.title == b.title && a.summary == b.summary && a.json == b.json && a.hash == b.hash
    && a.tags == b.tags && a.keywords == b.keywords && a.service == b.service
  }

  /** Nothing of the memory is left in the row. */
  predicate IsErased(row: Item, id: Id) {
    && row.title == FORGOTTEN_TITLE && row.summary == [] && row.json == NULL_JSON
    && row.tags == [] && row.keywords == [] && row.service == []
    && row.hash.OfForgotten? && row.hash.id == id
  }

  predicate IndexStep(s: Store, t: Store, id: Id, texts: Texts)
    requires id in t.items
  {
    ChunksOf(t, id) == ChunksOf(s, id) || ChunksOf(t, id) == IndexOf(t.items[id], texts)
  }

  /** The row keeps its texts and its index, which may be built; or everything is erased. */
  predicate RowStep(s: Store, t: Store, id: Id, texts: Texts)
    requires id in s.items && id in t.items
  {
    || (SameTexts(s.items[id], t.items[id]) && IndexStep(s, t, id, texts))
    || (IsErased(t.items[id], id) && t.items[id].org == s.items[id].org && ChunksOf(t, id) == [])
  }

  /** No row comes or goes. */
  ghost predicate Kept(s: Store, t: Store, texts: Texts) {
    && t.items.Keys == s.items.Keys
    && forall id :: id in s.items ==> RowStep(s, t, id, texts)
  }

  /** The index of an erased row is empty. */
  lemma ErasedIndex(row: Item, id: Id, texts: Texts)
    requires IsErased(row, id) && ParsesNull(texts)
    ensures IndexOf(row, texts) == []
  {
    NothingToIndex(row.title);
  }

  lemma RowStepTrans(a: Store, b: Store, c: Store, id: Id, texts: Texts)
    requires id in a.items && id in b.items && id in c.items && ParsesNull(texts)
    requires RowStep(a, b, id, texts) && RowStep(b, c, id, texts)
    ensures RowStep(a, c, id, texts)
  {
    if IsErased(c.items[id], id) {
      ErasedIndex(c.items[id], id, texts);
    }
  }

  lemma KeptTrans(a: Store, b: Store, c: Store, texts: Texts)
    requires Kept(a, b, texts) && Kept(b, c, texts) && ParsesNull(texts)
    ensures Kept(a, c, texts)
  {
    forall id | id in a.items ensures RowStep(a, c, id, texts) {
      assert id in b.items;
      RowStepTrans(a, b, c, id, texts);
    }
  }

  lemma HydrateOneKept(s: Store, id: Id, texts: Texts)
    requires id in s.items
    ensures Kept(s, HydrateOne(s, id, texts), texts)
  {}

  lemma {:induction false} HydrateKept(s: Store, ids: seq<Id>, texts: Texts)
    requires ParsesNull(texts) && forall i: nat :: i < |ids| ==> ids[i] in s.items
    ensures Kept(s, Hydrate(s, ids, texts), texts)
    decreases |ids|
  {
    if ids != [] {
      var n := |ids| - 1;
      HydrateKept(s, ids[..n], texts);
      HydrateOneKept(Hydrate(s, ids[..n], texts), ids[n], texts);
      KeptTrans(s, Hydrate(s, ids[..n], texts), Hydrate(s, ids, texts), texts);
    }
  }

  lemma GetKept(s: Store, id: Id, actor: Actor, scene: Scene, texts: Texts)
    ensures Kept(s, Get(s, id, actor, scene, texts).0, texts)
    ensures Get(s, id, actor, scene, texts).0.items == s.items
  {
    if id in s.items {
      HydrateOneKept(s, id, texts);
    }
  }

  /** One row is written, its texts are not. */
  lemma PutKept(s: Store, t: Store, id: Id, row: Item, texts: Texts)
    requires id in s.items && SameTexts(s.items[id], row) && t.items == s.items[id := row] && t.chunks == s.chunks
    ensures Kept(s, t, texts)
  {}

  lemma UpdateKept(s: Store, id: Id, actor: Actor, patch: Patch, now: int, texts: Texts)
    requires ParsesNull(texts)
    ensures Kept(s, Update(s, id, actor, patch, now, texts).0, texts)
  {
    var (s1, memory) := Get(s, id, actor, NO_SCENE, texts);
    GetKept(s, id, actor, NO_SCENE, texts);
    if memory.Some? && !(memory.value.scope == Organization && !actor.admin) {
      var row := memory.value;
      var next := Patched(row, patch, now, texts);
      var s2 := Written(s1, id, actor, row, next);
      PutKept(s1, s2, id, next, texts);
      GetKept(s2, id, actor, NO_SCENE, texts);
      KeptTrans(s, s1, s2, texts);
      KeptTrans(s, s2, Get(s2, id, actor, NO_SCENE, texts).0, texts);
    }
  }

  lemma EraseKept(s: Store, t: Store, id: Id, now: int, texts: Texts)
    requires id in s.items && t.items == s.items[id := Erased(s.items[id], id, now)] && t.chunks == s.chunks - {id}
    ensures Kept(s, t, texts)
  {}

  lemma ForgetKept(s: Store, id: Id, actor: Actor, now: int, texts: Texts)
    requires ParsesNull(texts)
    ensures Kept(s, Forget(s, id, actor, now, texts).0, texts)
  {
    var (s1, memory) := Get(s, id, actor, NO_SCENE, texts);
    GetKept(s, id, actor, NO_SCENE, texts);
    if memory.Some? && !(memory.value.scope == Organization && !actor.admin) {
      var s2 := Wiped(s1, id, actor, memory.value, now);
      EraseKept(s1, s2, id, now, texts);
      GetKept(s2, id, actor, NO_SCENE, texts);
      KeptTrans(s, s1, s2, texts);
      KeptTrans(s, s2, Get(s2, id, actor, NO_SCENE, texts).0, texts);
    }
  }

  lemma {:induction false} TouchKept(s: Store, ids: seq<Id>, now: int, texts: Texts)
    requires ParsesNull(texts) && forall i: nat :: i < |ids| ==> ids[i] in s.items
    ensures Kept(s, Touch(s, ids, now), texts)
    decreases |ids|
  {
    if ids != [] {
      var n := |ids| - 1;
      TouchKept(s, ids[..n], now, texts);
      var t := Touch(s, ids[..n], now);
      PutKept(t, Touch(s, ids, now), ids[n], Touched(t.items[ids[n]], now), texts);
      KeptTrans(s, t, Touch(s, ids, now), texts);
    }
  }

  lemma RetrieveKept(s: Store, listed: seq<Id>, chosen: seq<Id>, now: int, texts: Texts)
    requires ParsesNull(texts)
    requires forall i: nat :: i < |listed| ==> listed[i] in s.items
    requires forall i: nat :: i < |chosen| ==> chosen[i] in listed
    ensures Kept(s, Retrieve(s, listed, chosen, now, texts), texts)
  {
    HydrateKept(s, listed, texts);
    var t := Hydrate(s, listed, texts);
    assert forall i: nat :: i < |chosen| ==> chosen[i] in t.items;
    TouchKept(t, chosen, now, texts);
    KeptTrans(s, t, Touch(t, chosen, now), texts);
  }

  lemma MaintainKept(s: Store, ids: seq<Id>, limit: int, run: Run, texts: Texts)
    requires ParsesNull(texts) && Listed(s, run, limit, ids)
    ensures Kept(s, Maintain(s, ids, run, texts).store, texts)
  {
    var visible := VisibleIds(s, ids, run.actor);
    var hydrated, t := Hydrate(s, visible, texts), Maintain(s, ids, run, texts).store;
    HydrateKept(s, visible, texts);
    TablesKeepRows(s, ids, run, texts);
    forall id | id in s.items ensures RowStep(hydrated, t, id, texts) {
      var row := RowsAreOnlyMetered(s, ids, limit, run, texts, id);
      assert t.items[id] == row;
      assert ChunksOf(t, id) == ChunksOf(hydrated, id);
    }
    KeptTrans(s, hydrated, t, texts);
  }

  predicate Inserts(op: Op) {
    op.Creating? && Refuse(op.input, op.actor).None? && op.found.None?
  }

  /** What update does to the rows: nothing, or the patch of one readable row. */
  lemma UpdateRows(s: Store, id: Id, actor: Actor, patch: Patch, now: int, texts: Texts)
    ensures var t := Update(s, id, actor, patch, now, texts).0;
            || t.items == s.items
            || (Readable(s, id, actor, NO_SCENE) && t.items == s.items[id := Patched(s.items[id], patch, now, texts)])
  {}

  lemma ForgetRows(s: Store, id: Id, actor: Actor, now: int, texts: Texts)
    ensures var t := Forget(s, id, actor, now, texts).0;
            || t.items == s.items
            || (Readable(s, id, actor, NO_SCENE) && t.items == s.items[id := Erased(s.items[id], id, now)])
  {}

  lemma CreateRows(s: Store, op: Op, texts: Texts)
    requires Enabled(s, op) && op.Creating? && !Inserts(op)
    ensures var t := Apply(s, op, texts);
            || t.items == s.items
            || (op.found.Some? && op.found.value in s.items
                && t.items == s.items[op.found.value :=
                                      Reinforce(s.items[op.found.value], NewConfidence(op.input, texts),
                                                                  NewImportance(op.input), op.now)])
  {}

  /** The row and its index are as they were. */
  predicate Untouched(s: Store, t: Store, id: Id) {
    && id in s.items && id in t.items && t.items[id] == s.items[id]
    && ChunksOf(t, id) == ChunksOf(s, id) && ScoreOf(t, id) == ScoreOf(s, id)
  }

  /** A row is inserted; the others stay. */
  ghost predicate Grown(s: Store, t: Store, id: Id, json: Text, texts: Texts) {
    && id !in s.items && t.items.Keys == s.items.Keys + {id}
    && t.items[id].json == json && t.items[id].hash == OfContent(json)
    && IndexStep(s, t, id, texts)
    && forall other :: other in s.items ==> Untouched(s, t, other)
  }

  lemma InsertedRow(s: Store, op: Op, texts: Texts)
    requires Enabled(s, op) && Inserts(op)
    ensures Apply(s, op, texts).items == s.items[op.id := NewItem(op.input, op.actor, op.now, texts)]
    ensures forall other :: other in s.items ==> Untouched(s, Apply(s, op, texts), other)
    ensures op.id in Apply(s, op, texts).items && IndexStep(s, Apply(s, op, texts), op.id, texts)
  {}

  lemma InsertGrows(s: Store, op: Op, texts: Texts)
    requires Enabled(s, op) && Inserts(op)
    ensures Grown(s, Apply(s, op, texts), op.id, op.input.json, texts)
    ensures Apply(s, op, texts).items == s.items[op.id := NewItem(op.input, op.actor, op.now, texts)]
  {
    InsertedRow(s, op, texts);
    var row := NewItem(op.input, op.actor, op.now, texts);
    assert row.json == op.input.json && row.hash == OfContent(op.input.json);
  }

  lemma CreateKept(s: Store, op: Op, texts: Texts)
    requires Enabled(s, op) && op.Creating? && !Inserts(op) && ParsesNull(texts)
    ensures Kept(s, Apply(s, op, texts), texts)
  {
    if op.found.Some? && Refuse(op.input, op.actor).None? {
      var id, row := op.found.value, s.items[op.found.value];
      var next := Reinforce(row, NewConfidence(op.input, texts), NewImportance(op.input), op.now);
      var s1 := Stored(s, op.input, op.actor, op.found, op.id, op.now, texts);
      var scene := Scene(op.input.thread, op.input.workflow);
      PutKept(s, s1, id, next, texts);
      GetKept(s1, id, op.actor, scene, texts);
      KeptTrans(s, s1, Get(s1, id, op.actor, scene, texts).0, texts);
    }
  }

  /** Every operation but an inserting create keeps the set of rows, and no operation edits a text. */
  lemma {:induction false} EveryStepKeeps(s: Store, op: Op, texts: Texts)
    requires Enabled(s, op) && ParsesNull(texts) && !Inserts(op)
    ensures Kept(s, Apply(s, op, texts), texts)
  {
    match op
    case Creating(_, _, _, _, _) => CreateKept(s, op, texts);
    case Updating(id, actor, patch, now) => UpdateKept(s, id, actor, patch, now, texts);
    case Forgetting(id, actor, now) => ForgetKept(s, id, actor, now, texts);
    case Reading(id, actor, scene) => GetKept(s, id, actor, scene, texts);
    case Retrieving(_, _, listed, chosen, now) => RetrieveKept(s, listed, chosen, now, texts);
    case Maintaining(ids, limit, run) => MaintainKept(s, ids, limit, run, texts);
  }

  // ---------------------------------------------------------------- the index and the erased rows

  /** The hash is that of the content, or the row is erased; the stored index is absent or what the builder
      makes of the row. */
  predicate RowIsTidy(s: Store, id: Id, texts: Texts)
    requires id in s.items
  {
    var row := s.items[id];
    && (match row.hash case OfContent(json) => row.json == json case OfForgotten(_, _) => IsErased(row, id))
    && (ChunksOf(s, id) == [] || ChunksOf(s, id) == IndexOf(row, texts))
  }

  ghost predicate Tidy(s: Store, texts: Texts) {
    && s.chunks.Keys <= s.items.Keys
    && forall id :: id in s.items ==> RowIsTidy(s, id, texts)
  }

  lemma TidyKept(s: Store, t: Store, texts: Texts)
    requires Tidy(s, texts) && Kept(s, t, texts) && t.chunks.Keys <= t.items.Keys && ParsesNull(texts)
    ensures Tidy(t, texts)
  {
    forall id | id in t.items ensures RowIsTidy(t, id, texts) {
      assert RowIsTidy(s, id, texts) && RowStep(s, t, id, texts);
    }
  }

  lemma TidyGrown(s: Store, t: Store, id: Id, json: Text, texts: Texts)
    requires Tidy(s, texts) && Grown(s, t, id, json, texts) && t.chunks.Keys <= t.items.Keys
    ensures Tidy(t, texts)
  {
    forall other | other in t.items ensures RowIsTidy(t, other, texts) {
      if other != id {
        assert RowIsTidy(s, other, texts);
      }
    }
  }

  lemma {:induction false} HydrateKeys(s: Store, ids: seq<Id>, texts: Texts)
    requires s.chunks.Keys <= s.items.Keys && forall i: nat :: i < |ids| ==> ids[i] in s.items
    ensures Hydrate(s, ids, texts).chunks.Keys <= s.items.Keys
    decreases |ids|
  {
    if ids != [] {
      HydrateKeys(s, ids[..|ids| - 1], texts);
    }
  }

  lemma GetKeys(s: Store, id: Id, actor: Actor, scene: Scene, texts: Texts)
    requires s.chunks.Keys <= s.items.Keys
    ensures var t := Get(s, id, actor, scene, texts).0; t.chunks.Keys <= t.items.Keys && t.items == s.items
  {}

  lemma UpdateKeys(s: Store, id: Id, actor: Actor, patch: Patch, now: int, texts: Texts)
    requires s.chunks.Keys <= s.items.Keys
    ensures var t := Update(s, id, actor, patch, now, texts).0; t.chunks.Keys <= t.items.Keys
  {
    var (s1, memory) := Get(s, id, actor, NO_SCENE, texts);
    GetKeys(s, id, actor, NO_SCENE, texts);
    if memory.Some? && !(memory.value.scope == Organization && !actor.admin) {
      var row := memory.value;
      var next := Patched(row, patch, now, texts);
      var s2 := Written(s1, id, actor, row, next);
      GetKeys(s2, id, actor, NO_SCENE, texts);
    }
  }

  lemma ForgetKeys(s: Store, id: Id, actor: Actor, now: int, texts: Texts)
    requires s.chunks.Keys <= s.items.Keys
    ensures var t := Forget(s, id, actor, now, texts).0; t.chunks.Keys <= t.items.Keys
  {
    var (s1, memory) := Get(s, id, actor, NO_SCENE, texts);
    GetKeys(s, id, actor, NO_SCENE, texts);
    if memory.Some? && !(memory.value.scope == Organization && !actor.admin) {
      GetKeys(Wiped(s1, id, actor, memory.value, now), id, actor, NO_SCENE, texts);
    }
  }

  lemma CreateKeys(s: Store, op: Op, texts: Texts)
    requires Enabled(s, op) && op.Creating? && s.chunks.Keys <= s.items.Keys
    ensures Apply(s, op, texts).chunks.Keys <= Apply(s, op, texts).items.Keys
  {
    if Refuse(op.input, op.actor).None? {
      var s1, id := Stored(s, op.input, op.actor, op.found, op.id, op.now, texts), op.found.Or(op.id);
      GetKeys(s1, id, op.actor, Scene(op.input.thread, op.input.workflow), texts);
    }
  }

  lemma ChunkKeys(s: Store, op: Op, texts: Texts)
    requires Enabled(s, op) && s.chunks.Keys <= s.items.Keys
    ensures Apply(s, op, texts).chunks.Keys <= Apply(s, op, texts).items.Keys
  {
    match op
    case Creating(_, _, _, _, _) => CreateKeys(s, op, texts);
    case Updating(id, actor, patch, now) => UpdateKeys(s, id, actor, patch, now, texts);
    case Forgetting(id, actor, now) => ForgetKeys(s, id, actor, now, texts);
    case Reading(_, _, _) =>
    case Retrieving(_, _, listed, chosen, now) => HydrateKeys(s, listed, texts);
    case Maintaining(ids, limit, run) =>
      HydrateKeys(s, VisibleIds(s, ids, run.actor), texts);
      TablesKeepRows(s, ids, run, texts);
  }

  lemma {:induction false} TidyStep(s: Store, op: Op, texts: Texts)
    requires Enabled(s, op) && ParsesNull(texts) && Tidy(s, texts)
    ensures Tidy(Apply(s, op, texts), texts)
  {
    ChunkKeys(s, op, texts);
    if Inserts(op) {
      InsertGrows(s, op, texts);
      TidyGrown(s, Apply(s, op, texts), op.id, op.input.json, texts);
    } else {
      EveryStepKeeps(s, op, texts);
      TidyKept(s, Apply(s, op, texts), texts);
    }
  }

  /** Over any run, the stored chunks of a row are absent or exactly what the builder makes of that row, and
      a row under a forgotten hash is erased. */
  lemma {:induction false} RunsStayTidy(states: seq<Store>, ops: seq<Op>, texts: Texts, i: nat)
    requires IsRun(states, ops, texts) && ParsesNull(texts) && Tidy(states[0], texts) && i <= |ops|
    ensures Tidy(states[i], texts)
  {
    if i > 0 {
      RunsStayTidy(states, ops, texts, i - 1);
      TidyStep(states[i - 1], ops[i - 1], texts);
    }
  }

  /** Row id holds nothing of the memory, and neither does the index. */
  predicate Gone(s: Store, id: Id) {
    id in s.items && IsErased(s.items[id], id) && ChunksOf(s, id) == []
  }

  lemma GoneStays(s: Store, op: Op, texts: Texts, id: Id)
    requires Enabled(s, op) && ParsesNull(texts) && Gone(s, id)
    ensures Gone(Apply(s, op, texts), id)
  {
    var t := Apply(s, op, texts);
    if Inserts(op) {
      InsertGrows(s, op, texts);
    } else {
      EveryStepKeeps(s, op, texts);
      assert RowStep(s, t, id, texts);
      if SameTexts(s.items[id], t.items[id]) {
        ErasedIndex(t.items[id], id, texts);
      }
    }
  }

  lemma ForgetErases(s: Store, op: Op, texts: Texts)
    requires op.Forgetting?
    requires var out := Forget(s, op.id, op.actor, op.now, texts).1; out.Done? && out.memory.Some?
    ensures Gone(Apply(s, op, texts), op.id)
  {}

  /** A forget that succeeds erases the row and its index; and whatever happens later, to its status or
      otherwise, the row stays erased. */
  lemma {:induction false} ForgottenForGood(states: seq<Store>, ops: seq<Op>, texts: Texts, i: nat, j: nat)
    requires IsRun(states, ops, texts) && ParsesNull(texts) && i < j <= |ops| && ops[i].Forgetting?
    requires var op := ops[i];
             var out := Forget(states[i], op.id, op.actor, op.now, texts).1;
             out.Done? && out.memory.Some?
    ensures Gone(states[j], ops[i].id)
    decreases j
  {
    if j > i + 1 {
      ForgottenForGood(states, ops, texts, i, j - 1);
      GoneStays(states[j - 1], ops[j - 1], texts, ops[i].id);
    } else {
      ForgetErases(states[i], ops[i], texts);
    }
  }

  // ---------------------------------------------------------------- one row for one content

  /** At most one row for an organization and a content hash. */
  ghost predicate Unique(s: Store) {
    forall a, b :: a in s.items && b in s.items && a != b ==>
      !(s.items[a].org == s.items[b].org && s.items[a].hash == s.items[b].hash)
  }

  /** A create that finds no live row of its content although there is a row of it. */
  ghost predicate Duplicates(s: Store, op: Op) {
    Inserts(op) && exists id :: id in s.items && SameContent(s.items[id], op.actor.org, op.input.json)
  }

  lemma UniqueKept(s: Store, t: Store, texts: Texts)
    requires Tidy(s, texts) && Unique(s) && Kept(s, t, texts)
    ensures Unique(t)
  {
    forall a, b | a in t.items && b in t.items && a != b
      ensures !(t.items[a].org == t.items[b].org && t.items[a].hash == t.items[b].hash)
    {
      assert RowStep(s, t, a, texts) && RowStep(s, t, b, texts);
      assert RowIsTidy(s, a, texts) && RowIsTidy(s, b, texts);
    }
  }

  lemma UniqueGrown(s: Store, op: Op, texts: Texts)
    requires Unique(s) && Enabled(s, op) && Inserts(op)
    ensures Unique(Apply(s, op, texts)) <==> !Duplicates(s, op)
  {
    InsertGrows(s, op, texts);
    var t := Apply(s, op, texts);
    if Duplicates(s, op) {
      var id :| id in s.items && SameContent(s.items[id], op.actor.org, op.input.json);
      assert id in t.items && op.id in t.items && id != op.id;
    } else {
      forall a, b | a in t.items && b in t.items && a != b
        ensures !(t.items[a].org == t.items[b].org && t.items[a].hash == t.items[b].hash)
      {
        assert a != op.id ==> a in s.items && !SameContent(s.items[a], op.actor.org, op.input.json);
        assert b != op.id ==> b in s.items && !SameContent(s.items[b], op.actor.org, op.input.json);
      }
    }
  }

  /** An operation stores a content twice exactly if it is such a create. */
  lemma {:induction false} UniqueStep(s: Store, op: Op, texts: Texts)
    requires Enabled(s, op) && ParsesNull(texts) && Tidy(s, texts) && Unique(s)
    ensures Unique(Apply(s, op, texts)) <==> !Duplicates(s, op)
  {
    if Inserts(op) {
      UniqueGrown(s, op, texts);
    } else {
      EveryStepKeeps(s, op, texts);
      UniqueKept(s, Apply(s, op, texts), texts);
    }
  }

  ghost predicate UniqueThroughout(states: seq<Store>, n: nat)
    requires n < |states|
  {
    forall i: nat :: i <= n ==> Unique(states[i])
  }

  ghost predicate NeverDuplicates(states: seq<Store>, ops: seq<Op>, n: nat)
    requires n <= |ops| && |states| == |ops| + 1
  {
    forall i: nat :: i < n ==> !Duplicates(states[i], ops[i])
  }

  /** A run keeps one row for each organization and content hash throughout exactly if no create in it inserts a
      content of which only forgotten rows are left. */
  lemma {:induction false} UniqueRuns(states: seq<Store>, ops: seq<Op>, texts: Texts, n: nat)
    requires IsRun(states, ops, texts) && ParsesNull(texts) && Tidy(states[0], texts) && Unique(states[0]) && n <= |ops|
    ensures UniqueThroughout(states, n) <==> NeverDuplicates(states, ops, n)
  {
    if n > 0 {
      UniqueRuns(states, ops, texts, n - 1);
      RunsStayTidy(states, ops, texts, n - 1);
      if UniqueThroughout(states, n - 1) {
        UniqueStep(states[n - 1], ops[n - 1], texts);
      }
      assert UniqueThroughout(states, n) <==> UniqueThroughout(states, n - 1) && Unique(states[n]);
      assert NeverDuplicates(states, ops, n) <==>
             NeverDuplicates(states, ops, n - 1) && !Duplicates(states[n - 1], ops[n - 1]);
    }
  }

  /** The operation gives a row the status forgotten without erasing it. */
  predicate ForgetsSoftly(op: Op, texts: Texts) {
    match op
    case Updating(_, _, patch, _) => patch.status == Some(Forgotten)
    case Creating(input, _, _, _, _) => input.status == Some(Forgotten) && !Injected(input, texts)
    case _ => false
  }

  /** Every forgotten row is erased. */
  ghost predicate ForgottenIsErased(s: Store) {
    forall id :: id in s.items && s.items[id].status == Forgotten ==> s.items[id].hash.OfForgotten?
  }

  lemma {:induction false} TouchKeepsStatus(s: Store, ids: seq<Id>, now: int, id: Id)
    requires (forall i: nat :: i < |ids| ==> ids[i] in s.items) && id in s.items
    ensures Touch(s, ids, now).items[id].status == s.items[id].status
    ensures Touch(s, ids, now).items[id].hash == s.items[id].hash
    decreases |ids|
  {
    if ids != [] {
      TouchKeepsStatus(s, ids[..|ids| - 1], now, id);
    }
  }

  lemma ForgottenAfterRetrieve(s: Store, listed: seq<Id>, chosen: seq<Id>, now: int, texts: Texts)
    requires forall i: nat :: i < |listed| ==> listed[i] in s.items
    requires forall i: nat :: i < |chosen| ==> chosen[i] in listed
    requires ForgottenIsErased(s)
    ensures ForgottenIsErased(Retrieve(s, listed, chosen, now, texts))
  {
    var t := Hydrate(s, listed, texts);
    assert forall i: nat :: i < |chosen| ==> chosen[i] in t.items;
    forall id | id in t.items
      ensures Touch(t, chosen, now).items[id].status == t.items[id].status
      ensures Touch(t, chosen, now).items[id].hash == t.items[id].hash
    {
      TouchKeepsStatus(t, chosen, now, id);
    }
  }

  lemma ForgottenAfterMaintain(s: Store, ids: seq<Id>, limit: int, run: Run, texts: Texts)
    requires Listed(s, run, limit, ids) && ForgottenIsErased(s)
    ensures ForgottenIsErased(Maintain(s, ids, run, texts).store)
  {
    TablesKeepRows(s, ids, run, texts);
    var t := Maintain(s, ids, run, texts).store;
    forall id | id in t.items && t.items[id].status == Forgotten ensures t.items[id].hash.OfForgotten? {
      var row := RowsAreOnlyMetered(s, ids, limit, run, texts, id);
      assert t.items[id] == row;
    }
  }

  lemma ForgottenStaysErased(s: Store, op: Op, texts: Texts)
    requires Enabled(s, op) && !ForgetsSoftly(op, texts) && ForgottenIsErased(s)
    ensures ForgottenIsErased(Apply(s, op, texts))
  {
    match op
    case Creating(_, _, _, _, _) =>
      if Inserts(op) {
        InsertGrows(s, op, texts);
      } else {
        CreateRows(s, op, texts);
      }
    case Updating(id, actor, patch, now) => UpdateRows(s, id, actor, patch, now, texts);
    case Forgetting(id, actor, now) => ForgetRows(s, id, actor, now, texts);
    case Reading(_, _, _) =>
    case Retrieving(_, _, listed, chosen, now) => ForgottenAfterRetrieve(s, listed, chosen, now, texts);
    case Maintaining(ids, limit, run) => ForgottenAfterMaintain(s, ids, limit, run, texts);
  }

  /** If no operation gives a row the status forgotten without erasing it, no content is stored twice. */
  lemma {:induction false} HardForgettingIsUnique(states: seq<Store>, ops: seq<Op>, texts: Texts, n: nat)
    requires IsRun(states, ops, texts) && ParsesNull(texts) && Tidy(states[0], texts) && Unique(states[0]) && n <= |ops|
    requires ForgottenIsErased(states[0]) && forall i: nat :: i < |ops| ==> !ForgetsSoftly(ops[i], texts)
    ensures Unique(states[n]) && ForgottenIsErased(states[n])
  {
    if n > 0 {
      HardForgettingIsUnique(states, ops, texts, n - 1);
      RunsStayTidy(states, ops, texts, n - 1);
      var s, op := states[n - 1], ops[n - 1];
      ForgottenStaysErased(s, op, texts);
      UniqueStep(s, op, texts);
    }
  }

  const EMPTY := Store(map[], map[], map[], [])

  /** Creating a memory, setting its status to forgotten through an update, and creating it again. */
  function Again(input: Input, actor: Actor, first: Id, second: Id): seq<Op> {
    [Creating(input, actor, None, first, 0),
     Updating(first, actor, Patch(Some(Forgotten), None, None, None, None), 1),
     Creating(input, actor, None, second, 2)]
  }

  lemma CreatedOnce(s: Store, input: Input, actor: Actor, id: Id, now: int, texts: Texts) returns (t: Store)
    requires IsLookup(s, actor.org, input.json, None) && id !in s.items && Refuse(input, actor).None?
    ensures t == Apply(s, Creating(input, actor, None, id, now), texts)
    ensures t.items == s.items[id := NewItem(input, actor, now, texts)]
  {
    t := Apply(s, Creating(input, actor, None, id, now), texts);
    InsertGrows(s, Creating(input, actor, None, id, now), texts);
  }

  lemma SoftlyForgotten(s: Store, actor: Actor, id: Id, patch: Patch, texts: Texts) returns (t: Store)
    requires id in s.items && actor.admin && s.items[id].org == actor.org
    ensures t == Apply(s, Updating(id, actor, patch, 1), texts)
    ensures t.items == s.items[id := Patched(s.items[id], patch, 1, texts)]
  {
    t := Apply(s, Updating(id, actor, patch, 1), texts);
  }

  lemma ThreeSteps(s0: Store, s1: Store, s2: Store, s3: Store, ops: seq<Op>, texts: Texts)
    requires |ops| == 3 && Enabled(s0, ops[0]) && s1 == Apply(s0, ops[0], texts)
    requires Enabled(s1, ops[1]) && s2 == Apply(s1, ops[1], texts)
    requires Enabled(s2, ops[2]) && s3 == Apply(s2, ops[2], texts)
    ensures IsRun([s0, s1, s2, s3], ops, texts)
  {}

  lemma StoredTwice(s: Store, t: Store, row: Item, earlier: Id, id: Id, org: Id, json: Text)
    requires earlier in s.items && SameContent(s.items[earlier], org, json) && id != earlier
    requires t.items == s.items[id := row] && SameContent(row, org, json)
    ensures !Unique(t)
  {
    assert earlier in t.items && id in t.items;
  }

  /** It really happens: an administrator stores the same content twice this way, whatever the content is. */
  lemma SoftForgettingDuplicates(input: Input, actor: Actor, first: Id, second: Id, texts: Texts)
    returns (states: seq<Store>)
    requires actor.admin && first != second && Refuse(input, actor).None?
    ensures IsRun(states, Again(input, actor, first, second), texts) && states[0] == EMPTY
    ensures !Unique(states[3])
  {
    var patch := Patch(Some(Forgotten), None, None, None, None);
    var s1 := CreatedOnce(EMPTY, input, actor, first, 0, texts);
    var s2 := SoftlyForgotten(s1, actor, first, patch, texts);
    assert s2.items.Keys == {first};
    assert s2.items[first] == Patched(NewItem(input, actor, 0, texts), patch, 1, texts);
    var s3 := CreatedOnce(s2, input, actor, second, 2, texts);
    StoredTwice(s2, s3, NewItem(input, actor, 2, texts), first, second, actor.org, input.json);
    ThreeSteps(EMPTY, s1, s2, s3, Again(input, actor, first, second), texts);
    states := [EMPTY, s1, s2, s3];
  }

  // ---------------------------------------------------------------- organizations are apart

  lemma {:induction false} HydrateElsewhere(s: Store, ids: seq<Id>, texts: Texts, id: Id)
    requires (forall i: nat :: i < |ids| ==> ids[i] in s.items && ids[i] != id)
    ensures ChunksOf(Hydrate(s, ids, texts), id) == ChunksOf(s, id)
    ensures ScoreOf(Hydrate(s, ids, texts), id) == ScoreOf(s, id)
    decreases |ids|
  {
    if ids != [] {
      HydrateElsewhere(s, ids[..|ids| - 1], texts, id);
    }
  }

  lemma {:induction false} TouchElsewhere(s: Store, ids: seq<Id>, now: int, id: Id)
    requires (forall i: nat :: i < |ids| ==> ids[i] in s.items && ids[i] != id) && id in s.items
    ensures Touch(s, ids, now).items[id] == s.items[id]
    decreases |ids|
  {
    if ids != [] {
      TouchElsewhere(s, ids[..|ids| - 1], now, id);
    }
  }

  /** Reading a row touches no index but its own. */
  lemma GetElsewhere(s: Store, target: Id, actor: Actor, scene: Scene, texts: Texts, id: Id)
    requires id in s.items && (id != target || s.items[id].org != actor.org)
    ensures Untouched(s, Get(s, target, actor, scene, texts).0, id)
  {}

  lemma UntouchedTrans(a: Store, b: Store, c: Store, id: Id)
    requires Untouched(a, b, id) && Untouched(b, c, id)
    ensures Untouched(a, c, id)
  {}

  lemma OthersAfterCreate(s: Store, op: Op, texts: Texts, id: Id)
    requires Enabled(s, op) && op.Creating? && id in s.items && s.items[id].org != op.actor.org
    ensures Untouched(s, Apply(s, op, texts), id)
  {
    if Inserts(op) {
      InsertGrows(s, op, texts);
    } else if op.found.Some? && Refuse(op.input, op.actor).None? {
      var target, row := op.found.value, s.items[op.found.value];
      var next := Reinforce(row, NewConfidence(op.input, texts), NewImportance(op.input), op.now);
      var s1 := Stored(s, op.input, op.actor, op.found, op.id, op.now, texts);
      var scene := Scene(op.input.thread, op.input.workflow);
      assert Untouched(s, s1, id);
      GetElsewhere(s1, target, op.actor, scene, texts, id);
      UntouchedTrans(s, s1, Get(s1, target, op.actor, scene, texts).0, id);
    }
  }

  lemma OthersAfterUpdate(s: Store, target: Id, actor: Actor, patch: Patch, now: int, texts: Texts, id: Id)
    requires id in s.items && s.items[id].org != actor.org
    ensures Untouched(s, Update(s, target, actor, patch, now, texts).0, id)
  {
    var (s1, memory) := Get(s, target, actor, NO_SCENE, texts);
    GetElsewhere(s, target, actor, NO_SCENE, texts, id);
    if memory.Some? && !(memory.value.scope == Organization && !actor.admin) {
      var row := memory.value;
      var next := Patched(row, patch, now, texts);
      var s2 := Written(s1, target, actor, row, next);
      assert Untouched(s1, s2, id);
      GetElsewhere(s2, target, actor, NO_SCENE, texts, id);
      UntouchedTrans(s, s1, s2, id);
      UntouchedTrans(s, s2, Get(s2, target, actor, NO_SCENE, texts).0, id);
    }
  }

  lemma OthersAfterForget(s: Store, target: Id, actor: Actor, now: int, texts: Texts, id: Id)
    requires id in s.items && s.items[id].org != actor.org
    ensures Untouched(s, Forget(s, target, actor, now, texts).0, id)
  {
    var (s1, memory) := Get(s, target, actor, NO_SCENE, texts);
    GetElsewhere(s, target, actor, NO_SCENE, texts, id);
    if memory.Some? && !(memory.value.scope == Organization && !actor.admin) {
      var s2 := Wiped(s1, target, actor, memory.value, now);
      assert Untouched(s1, s2, id);
      GetElsewhere(s2, target, actor, NO_SCENE, texts, id);
      UntouchedTrans(s, s1, s2, id);
      UntouchedTrans(s, s2, Get(s2, target, actor, NO_SCENE, texts).0, id);
    }
  }

  lemma OthersAfterRetrieve(s: Store, op: Op, texts: Texts, id: Id)
    requires Enabled(s, op) && op.Retrieving? && id in s.items && s.items[id].org != op.actor.org
    ensures Untouched(s, Apply(s, op, texts), id)
  {
    var t := Hydrate(s, op.listed, texts);
    HydrateElsewhere(s, op.listed, texts, id);
    assert forall i: nat :: i < |op.chosen| ==> op.chosen[i] in t.items && op.chosen[i] != id;
    TouchElsewhere(t, op.chosen, op.now, id);
  }

  lemma OthersAfterMaintain(s: Store, ids: seq<Id>, limit: int, run: Run, texts: Texts, id: Id)
    requires Listed(s, run, limit, ids) && id in s.items && s.items[id].org != run.actor.org
    ensures Untouched(s, Maintain(s, ids, run, texts).store, id)
  {
    var visible := VisibleIds(s, ids, run.actor);
    forall i: nat | i < |visible| ensures visible[i] != id {
      VisibleFrom(s, ids, run.actor, i);
    }
    HydrateElsewhere(s, visible, texts, id);
    TablesKeepRows(s, ids, run, texts);
    forall i: nat | i < |Scanned(s, ids, run.actor)| ensures Scanned(s, ids, run.actor)[i].id != id {
      SnapshotFrom(s, visible, run.actor, i);
    }
    OtherRowsStay(s, ids, limit, run, texts, id);
  }

  /** No operation of a user of one organization changes a memory of another, or its index. */
  lemma {:induction false} OtherOrganizationsStay(s: Store, op: Op, texts: Texts, id: Id)
    requires Enabled(s, op) && id in s.items && s.items[id].org != op.Who().org
    ensures Untouched(s, Apply(s, op, texts), id)
  {
    match op
    case Creating(_, _, _, _, _) => OthersAfterCreate(s, op, texts, id);
    case Updating(target, actor, patch, now) => OthersAfterUpdate(s, target, actor, patch, now, texts, id);
    case Forgetting(target, actor, now) => OthersAfterForget(s, target, actor, now, texts, id);
    case Reading(_, _, _) =>
    case Retrieving(_, _, _, _, _) => OthersAfterRetrieve(s, op, texts, id);
    case Maintaining(ids, limit, run) => OthersAfterMaintain(s, ids, limit, run, texts, id);
  }

  /** Over any run in which only users of other organizations act, a memory stays exactly as it is. */
  lemma {:induction false} OrganizationsAreApart(states: seq<Store>, ops: seq<Op>, texts: Texts, id: Id, n: nat)
    requires IsRun(states, ops, texts) && n <= |ops| && id in states[0].items
    requires forall i: nat :: i < |ops| ==> ops[i].Who().org != states[0].items[id].org
    ensures Untouched(states[0], states[n], id)
  {
    if n > 0 {
      OrganizationsAreApart(states, ops, texts, id, n - 1);
      OtherOrganizationsStay(states[n - 1], ops[n - 1], texts, id);
    }
  }

  // ---------------------------------------------------------------- scores, and what create returns

  predicate InRange(row: Item) {
    0.0 <= row.confidence <= 100.0 && 0.0 <= row.importance <= 100.0 && 0.0 <= row.vitality <= 100.0
  }

  ghost predicate AllInRange(s: Store) {
    forall id :: id in s.items ==> InRange(s.items[id])
  }

  /** A new suspicious memory with a negative confidence: the cap at 35 replaces the clamp. */
  predicate Underflows(op: Op, texts: Texts) {
    Inserts(op) && Injected(op.input, texts) && op.input.confidence.Or(70.0) < 0.0
  }

  lemma {:induction false} TouchInRange(s: Store, ids: seq<Id>, now: int)
    requires (forall i: nat :: i < |ids| ==> ids[i] in s.items) && AllInRange(s)
    ensures AllInRange(Touch(s, ids, now))
    decreases |ids|
  {
    if ids != [] {
      TouchInRange(s, ids[..|ids| - 1], now);
    }
  }

  lemma ScoresAfterInsert(s: Store, op: Op, texts: Texts)
    requires Enabled(s, op) && AllInRange(s) && Inserts(op)
    ensures AllInRange(Apply(s, op, texts)) <==> !Underflows(op, texts)
  {
    InsertGrows(s, op, texts);
    var t := Apply(s, op, texts);
    assert op.id in t.items;
    assert InRange(t.items[op.id]) <==> !Underflows(op, texts);
  }

  lemma ScoresAfterRetrieve(s: Store, listed: seq<Id>, chosen: seq<Id>, now: int, texts: Texts)
    requires forall i: nat :: i < |listed| ==> listed[i] in s.items
    requires forall i: nat :: i < |chosen| ==> chosen[i] in listed
    requires AllInRange(s)
    ensures AllInRange(Retrieve(s, listed, chosen, now, texts))
  {
    var h := Hydrate(s, listed, texts);
    assert forall i: nat :: i < |chosen| ==> chosen[i] in h.items;
    TouchInRange(h, chosen, now);
  }

  lemma ScoresAfterMaintain(s: Store, ids: seq<Id>, limit: int, run: Run, texts: Texts)
    requires Listed(s, run, limit, ids) && AllInRange(s)
    ensures AllInRange(Maintain(s, ids, run, texts).store)
  {
    TablesKeepRows(s, ids, run, texts);
    var t := Maintain(s, ids, run, texts).store;
    forall id | id in t.items ensures InRange(t.items[id]) {
      var row := RowsAreOnlyMetered(s, ids, limit, run, texts, id);
      assert t.items[id] == row;
    }
  }

  /** Every operation keeps all scores between 0 and 100, exactly unless it is such a create. */
  lemma {:induction false} ScoresStayInRange(s: Store, op: Op, texts: Texts)
    requires Enabled(s, op) && AllInRange(s)
    ensures AllInRange(Apply(s, op, texts)) <==> !Underflows(op, texts)
  {
    match op
    case Creating(_, _, _, _, _) =>
      if Inserts(op) {
        ScoresAfterInsert(s, op, texts);
      } else {
        CreateRows(s, op, texts);
      }
    case Updating(id, actor, patch, now) => UpdateRows(s, id, actor, patch, now, texts);
    case Forgetting(id, actor, now) => ForgetRows(s, id, actor, now, texts);
    case Reading(_, _, _) =>
    case Retrieving(_, _, listed, chosen, now) => ScoresAfterRetrieve(s, listed, chosen, now, texts);
    case Maintaining(ids, limit, run) => ScoresAfterMaintain(s, ids, limit, run, texts);
  }

  /** A create that passes a confidence passes one that is not negative, as every caller of the module does. */
  predicate PassesConfidence(op: Op) {
    op.Creating? && op.input.confidence.Some? ==> op.input.confidence.value >= 0.0
  }

  /** Over any run whose creates pass no negative confidence, all scores stay between 0 and 100. */
  lemma {:induction false} RunsStayInRange(states: seq<Store>, ops: seq<Op>, texts: Texts, i: nat)
    requires IsRun(states, ops, texts) && AllInRange(states[0]) && i <= |ops|
    requires forall k: nat :: k < |ops| ==> PassesConfidence(ops[k])
    ensures AllInRange(states[i])
  {
    if i > 0 {
      RunsStayInRange(states, ops, texts, i - 1);
      assert PassesConfidence(ops[i - 1]);
      ScoresStayInRange(states[i - 1], ops[i - 1], texts);
    }
  }

  lemma InsertReturns(s: Store, op: Op, texts: Texts, row: Item)
    requires op.Creating? && Refuse(op.input, op.actor).None? && op.found.None?
             && row == NewItem(op.input, op.actor, op.now, texts)
    ensures Create(s, op.input, op.actor, op.found, op.id, op.now, texts).1 == Done(Some(row))
  {
    assert Visible(row, op.actor, Scene(op.input.thread, op.input.workflow));
  }

  lemma ReinforceReturns(s: Store, op: Op, texts: Texts, held: Item)
    requires op.Creating? && Refuse(op.input, op.actor).None? && op.found.Some? && op.found.value in s.items
    requires held == s.items[op.found.value] && held.org == op.actor.org
    ensures var out := Create(s, op.input, op.actor, op.found, op.id, op.now, texts).1;
            && out.Done?
            && (out.memory.None? <==>
                !Visible(held, op.actor, Scene(op.input.thread, op.input.workflow)) && !op.actor.admin)
  {}

  /** A create that inserts returns the new memory to its author; one that reinforces returns null exactly if the
      author may not read the memory it reinforced. */
  lemma {:induction false} CreateReturns(s: Store, op: Op, texts: Texts)
    requires Enabled(s, op) && op.Creating? && Refuse(op.input, op.actor).None?
    ensures var out := Create(s, op.input, op.actor, op.found, op.id, op.now, texts).1;
            && out.Done?
            && (op.found.None? ==> out.memory == Some(NewItem(op.input, op.actor, op.now, texts)))
            && (op.found.Some? ==>
                  (out.memory.None? <==>
                   !Visible(s.items[op.found.value], op.actor, Scene(op.input.thread, op.input.workflow))
                       && !op.actor.admin))
  {
    if op.found.None? {
      InsertReturns(s, op, texts, NewItem(op.input, op.actor, op.now, texts));
    } else {
      ReinforceReturns(s, op, texts, s.items[op.found.value]);
    }
  }

  /** The personal memory of another member of the organization. */
  function HeldBy(owner: Id, input: Input, org: Id, texts: Texts): Item {
    NewItem(input, Actor(owner, org, false), 0, texts)
  }

  /** It really happens: Bob, who is no administrator, creates a personal memory with the content of one that
      Alice holds; hers is reinforced, and Bob gets null. */
  lemma ReinforcingIsHidden(input: Input, texts: Texts) returns (t: Store)
    requires input.scope == Personal && !Injected(input, texts) && input.status == None
    ensures var held := HeldBy("alice", input, "org", texts);
            var s := Store(map["x" := held], map[], map[], []);
            var op := Creating(input, Actor("bob", "org", false), Some("x"), "y", 1);
            && Enabled(s, op)
            && Create(s, op.input, op.actor, op.found, op.id, op.now, texts) == (t, Done(None))
            && t.items.Keys == {"x"} && t.items["x"].reinforcements == 1
  {
    var held := HeldBy("alice", input, "org", texts);
    var s := Store(map["x" := held], map[], map[], []);
    var op := Creating(input, Actor("bob", "org", false), Some("x"), "y", 1);
    CreateReturns(s, op, texts);
    t := Create(s, op.input, op.actor, op.found, op.id, op.now, texts).0;
  }
}
