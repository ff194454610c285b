/**
  The memory store as the code runs it: a database object whose methods change the tables statement by statement,
  proved against the functions of MemoryModel.
 */
module MemoryStore {

  import opened TextChunks
  import opened MemoryChunks
  import opened MemoryModel
  import opened MemoryLinks

  lemma Overwrite(m: map<Id, seq<Chunk>>, id: Id, rows: seq<Chunk>, i: nat)
    requires i < |rows|
    ensures m[id := rows[..i]][id := rows[..i] + [rows[i]]] == m[id := rows[..i + 1]]
  {
    assert rows[..i + 1] == rows[..i] + [rows[i]];
  }

  /** Reading again changes nothing and finds the same. */
  lemma GetTwice(s: Store, id: Id, actor: Actor, scene: Scene, texts: Texts)
    ensures var (t, memory) := Get(s, id, actor, scene, texts); Get(t, id, actor, scene, texts) == (t, memory)
  {
    if Readable(s, id, actor, scene) {
      HydrateTwice(s, id, texts);
    }
  }

  lemma PutTwice<V>(m: map<Id, V>, id: Id, v: V)
    ensures m[id := v][id := v] == m[id := v]
  {}

  lemma HydrateTwice(s: Store, id: Id, texts: Texts)
    requires id in s.items
    ensures var t := HydrateOne(s, id, texts); HydrateOne(t, id, texts) == t
  {
    var row := s.items[id];
    var index := IndexOf(row, texts);
    PutTwice(s.chunks, id, index);
    PutTwice(s.scores, id, row.confidence);
  }

  class Database {
    var items: map<Id, Item>
    var chunks: map<Id, seq<Chunk>>
    var scores: map<Id, real>
    var actions: seq<Action>

    function State(): Store
      reads this
    {
      Store(items, chunks, scores, actions)
    }

    method AddAction(memory: Id, actor: Actor, name: ActionName, before: Status, next: Status)
      modifies this`actions
      ensures actions == old(actions) + [Action(memory, actor.id, name, before, next)]
    {
      actions := actions + [Action(memory, actor.id, name, before, next)];
    }

    /** persistMemoryChunks: the old index is deleted, the new one inserted row by row. */
    method PersistChunks(id: Id, title: Text, summary: Text, content: Content, confidence: real)
      modifies this`chunks, this`scores
      ensures chunks == old(chunks)[id := Build(title, summary, content)]
      ensures scores == old(scores)[id := confidence]
    {
      var built := BuildChunks(title, summary, content);
      ghost var before := chunks;
      chunks, scores := chunks[id := []], scores[id := confidence];
      for i := 0 to |built|
        invariant id in chunks && chunks[id] == built[..i]
        invariant chunks == before[id := built[..i]] && scores == old(scores)[id := confidence]
      {
        Overwrite(before, id, built, i);
        chunks := chunks[id := chunks[id] + [built[i]]];
      }
      assert built[..|built|] == built;
    }

    method HydrateMemories(ids: seq<Id>, texts: Texts)
      requires forall i: nat :: i < |ids| ==> ids[i] in items
      modifies this`chunks, this`scores
      ensures State() == Hydrate(old(State()), ids, texts)
    {
      for i := 0 to |ids|
        invariant State() == Hydrate(old(State()), ids[..i], texts)
      {
        assert ids[..i + 1][..i] == ids[..i];
        var id := ids[i];
        var item := items[id];
        if item.status != Forgotten && ChunksOf(State(), id) == [] {
          PersistChunks(id, item.title, item.summary, texts.parse(item.json), item.confidence);
        }
      }
      assert ids[..|ids|] == ids;
    }

    method GetMemory(id: Id, actor: Actor, scene: Scene, texts: Texts) returns (memory: Option<Item>)
      modifies this`chunks, this`scores
      ensures (State(), memory) == Get(old(State()), id, actor, scene, texts)
    {
      if id !in items || items[id].org != actor.org {
        return None;
      }
      var item := items[id];
      if !Visible(item, actor, scene) && !actor.admin {
        return None;
      }
      assert [id][..0] == [];
      HydrateMemories([id], texts);
      memory := Some(item);
    }

    method CreateMemory(journal: Journal, input: Input, actor: Actor, found: Option<Id>, id: Id, others: seq<Id>,
                        now: int, like: Likeness, texts: Texts)
      returns (out: Outcome)
      requires IsLookup(State(), actor.org, input.json, found) && id !in items && IsNewest(State(), actor.org, others)
      modifies this, journal
      ensures (State(), out) == Create(old(State()), input, actor, found, id, now, texts)
      ensures journal.State() == Noted(old(journal.State()), old(State()), input, actor, found, id, others, now, like,
                                       texts)
    {
      if input.scope == Organization && !actor.admin {
        return Refused(AdminOnly);
      }
      if input.scope == Thread && input.thread == "" {
        return Refused(ThreadMissing);
      }
      if input.scope == Workflow && input.workflow == "" {
        return Refused(WorkflowMissing);
      }
      var title, summary := CleanTitle(input.title, texts), CleanSummary(input.summary, texts);
      var detected := texts.suspicious(title + LINE + summary + LINE + input.json);
      var confidence := if detected then Min(35.0, input.confidence.Or(70.0))
          else ClampScore(input.confidence.Or(72.0));
      var importance := ClampScore(input.importance.Or(60.0));
      var memory;
      if found.Some? {
        ReinforceMemory(found.value, actor, confidence, importance, now);
        journal.AddMemorySources(found.value, input.sources, now);
        memory := GetMemory(found.value, actor, Scene(input.thread, input.workflow), texts);
      } else {
        InsertMemory(id, actor, input, title, summary, detected, confidence, importance, now, texts);
        journal.AddMemorySources(id, input.sources, now);
        ghost var before := old(Entries(State(), others));
        memory := RelateInserted(journal, id, input, actor, others, before, detected, now, like, texts);
      }
      out := Done(memory);
    }

    /** The inserted memory is read, which indexes it, related to the others, and read again. */
    method RelateInserted(journal: Journal, id: Id, input: Input, actor: Actor, others: seq<Id>,
                          ghost before: seq<Entry>, detected: bool, now: int, like: Likeness, texts: Texts)
      returns (memory: Option<Item>)
      requires id in items && items[id] == NewItem(input, actor, now, texts) && detected == Injected(input, texts)
      requires forall i: nat :: i < |others| ==> others[i] in items
      requires before == Entries(State(), others) && Refuse(input, actor).None?
      modifies this`chunks, this`scores, journal`relations, journal`audits
      ensures (State(), memory) == Get(old(State()), id, actor, Scene(input.thread, input.workflow), texts)
      ensures journal.State() == WithInserted(old(journal.State()), id, old(items)[id], input, actor, before, detected,
                                              now, like)
    {
      var scene := Scene(input.thread, input.workflow);
      var created := GetMemory(id, actor, scene, texts);
      assert Entries(State(), others) == before;
      journal.CreateMemoryRelations(id, created.value, Entries(State(), others), like, now);
      journal.audits := journal.audits + [MemoryCreated(id, TraceOf(input, id), actor.org, actor.id, detected)];
      GetTwice(old(State()), id, actor, scene, texts);
      memory := GetMemory(id, actor, scene, texts);
    }

    method ReinforceMemory(id: Id, actor: Actor, confidence: real, importance: real, now: int)
      requires id in items
      modifies this
      ensures chunks == old(chunks) && scores == old(scores)
      ensures items == old(items)[id := Reinforce(old(items)[id], confidence, importance, now)]
      ensures actions == old(actions) + [Action(id, actor.id, Reinforced, old(items)[id].status, old(items)[id].status)]
    {
      var existing := items[id];
      var vitality := ClampScore(Max(existing.vitality, (confidence + importance) / 2.0) + 4.0);
      items := items[id := existing.(
        reinforcements := existing.reinforcements + 1, vitality := vitality,
        confidence := Max(existing.confidence, confidence), importance := Max(existing.importance, importance),
        reinforcedAt := now, updatedAt := now)];
      AddAction(id, actor, Reinforced, existing.status, existing.status);
    }

    method InsertMemory(id: Id, actor: Actor, input: Input, title: Text, summary: Text, detected: bool,
                        confidence: real, importance: real, now: int, texts: Texts)
      requires title == CleanTitle(input.title, texts) && summary == CleanSummary(input.summary, texts)
      requires detected == Injected(input, texts)
      requires confidence == NewConfidence(input, texts) && importance == NewImportance(input)
      modifies this
      ensures chunks == old(chunks) && scores == old(scores)
      ensures var row := NewItem(input, actor, now, texts);
              && items == old(items)[id := row]
              && actions == old(actions) +
                 [Action(id, actor.id, if detected then AutoSuspended else Created, row.status, row.status)]
    {
      var status := if detected then Suspended else input.status.Or(Active);
      var service := Take(input.service, 160);
      var tags := Take(DistinctTags(input.tags), 40);
      var keywords := texts.keywords(title, summary, service, input.json);
      var vitality := ClampScore(confidence * 0.45 + importance * 0.45 + 10.0);
      items := items[id := Item(
        actor.org, actor.id, input.thread, input.workflow, input.kind, input.scope, service, title, summary, input.json,
        OfContent(input.json), tags, keywords, confidence, importance, vitality, 0, 0, status, input.pinned,
        Plain(Take(texts.redact(input.note), 4000)), now, now, input.expiresAt, now)];
      AddAction(id, actor, if detected then AutoSuspended else Created, status, status);
    }

    method UpdateMemory(id: Id, actor: Actor, patch: Patch, now: int, texts: Texts) returns (out: Outcome)
      modifies this
      ensures (State(), out) == Update(old(State()), id, actor, patch, now, texts)
    {
      var found := GetMemory(id, actor, NO_SCENE, texts);
      if found.None? {
        return Done(None);
      }
      var current := found.value;
      if current.scope == Organization && !actor.admin {
        return Refused(AdminOnly);
      }
      PatchMemory(id, current, actor, patch, now, texts);
      var memory := GetMemory(id, actor, NO_SCENE, texts);
      out := Done(memory);
    }

    method PatchMemory(id: Id, current: Item, actor: Actor, patch: Patch, now: int, texts: Texts)
      requires id in items && items[id] == current
      modifies this`items, this`scores, this`actions
      ensures State() == Written(old(State()), id, actor, current, Patched(current, patch, now, texts))
    {
      var nextStatus, pinned := patch.status.Or(current.status), patch.pinned.Or(current.pinned);
      var confidence := ClampScore(patch.confidence.Or(current.confidence));
      var importance := ClampScore(patch.importance.Or(current.importance));
      var vitality := current.vitality;
      if nextStatus == Verified {
        vitality := ClampScore(Max(current.vitality, confidence * 0.45 + importance * 0.45 + 10.0));
      }
      items := items[id := items[id].(
        status := nextStatus, pinned := pinned,
        note := if patch.note.Some? then Plain(Take(texts.redact(patch.note.value), 4000))
            else KeptNote(current.note, texts),
        confidence := confidence, importance := importance, vitality := vitality,
        reinforcedAt := if nextStatus == Verified then now else items[id].reinforcedAt,
        reinforcements := items[id].reinforcements
            + (if nextStatus == Verified && items[id].status != Verified then 1 else 0),
        updatedAt := now)];
      if confidence != current.confidence {
        scores := scores[id := confidence];
      }
      AddAction(id, actor, if nextStatus != current.status then StatusSet
                else if pinned != current.pinned then PinSet else Updated,
                current.status, nextStatus);
    }

    method ForgetMemory(journal: Journal, id: Id, actor: Actor, now: int, texts: Texts) returns (out: Outcome)
      modifies this, journal`audits
      ensures (State(), out) == Forget(old(State()), id, actor, now, texts)
      ensures journal.audits == old(journal.audits)
                                + if out.Done? && out.memory.Some?
                                  then [MemoryForgotten(id, actor.org, actor.id, old(items)[id].status)] else []
    {
      var found := GetMemory(id, actor, NO_SCENE, texts);
      if found.None? {
        return Done(None);
      }
      var current := found.value;
      if current.scope == Organization && !actor.admin {
        return Refused(AdminOnly);
      }
      items := items[id := Erased(current, id, now)];
      chunks, scores := chunks - {id}, scores - {id};
      AddAction(id, actor, Erasure, current.status, Forgotten);
      journal.audits := journal.audits + [MemoryForgotten(id, actor.org, actor.id, current.status)];
      var memory := GetMemory(id, actor, NO_SCENE, texts);
      out := Done(memory);
    }

    method RetrieveMemories(listed: seq<Id>, chosen: seq<Id>, now: int, texts: Texts)
      requires forall i: nat :: i < |listed| ==> listed[i] in items
      requires forall i: nat :: i < |chosen| ==> chosen[i] in listed
      modifies this`items, this`chunks, this`scores
      ensures State() == Retrieve(old(State()), listed, chosen, now, texts)
    {
      HydrateMemories(listed, texts);
      TouchMemories(chosen, now);
    }

    method TouchMemories(chosen: seq<Id>, now: int)
      requires forall i: nat :: i < |chosen| ==> chosen[i] in items
      modifies this`items
      ensures State() == Touch(old(State()), chosen, now)
    {
      for i := 0 to |chosen|
        invariant State() == Touch(old(State()), chosen[..i], now)
      {
        assert chosen[..i + 1][..i] == chosen[..i];
        var row := items[chosen[i]];
        items := items[chosen[i] := row.(accesses := row.accesses + 1, accessedAt := now,
                                         vitality := Min(100.0, row.vitality + 1.0), updatedAt := now)];
      }
      assert chosen[..|chosen|] == chosen;
    }
  }
}
