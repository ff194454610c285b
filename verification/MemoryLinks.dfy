/**
  What creating and maintaining memories leaves beside their rows (memory/index.ts): sources, relations between
  memories, and audit events. Similarity and contradiction of two texts are parameters.
 */
module MemoryLinks {

  import opened MemoryModel

  // ---------------------------------------------------------------- sources

  /** The columns a row of scry_memory_sources is unique for: memory, type, source and relation. */
  type SourceKey = (Id, Id, Id, Id)

  datatype SourceRow = SourceRow(trace: Id, weight: real, at: int)

  type Sources = map<SourceKey, SourceRow>

  function KeyOfSource(memory: Id, source: SourceInput): SourceKey {
    (memory, source.kind, source.source, if source.relation == "" then "derived_from" else source.relation)
  }

  function RowOfSource(source: SourceInput, now: int): SourceRow {
    SourceRow(source.trace, ClampScore(source.weight.Or(100.0)), now)
  }

  /** INSERT OR IGNORE for every source. */
  function WithSources(rows: Sources, memory: Id, sources: seq<SourceInput>, now: int): Sources
    decreases |sources|
  {
    if sources == [] then rows
    else
      var before, source := WithSources(rows, memory, sources[..|sources| - 1], now), sources[|sources| - 1];
      if KeyOfSource(memory, source) in before then before
      else before[KeyOfSource(memory, source) := RowOfSource(source, now)]
  }

  /** Source i is the first one with its key. */
  ghost predicate IsFirst(memory: Id, sources: seq<SourceInput>, i: nat, key: SourceKey) {
    && i < |sources| && KeyOfSource(memory, sources[i]) == key
    && forall j: nat :: j < i ==> KeyOfSource(memory, sources[j]) != key
  }

  function SourceAt(rows: Sources, key: SourceKey): Option<SourceRow> {
    if key in rows then Some(rows[key]) else None
  }

  /** A key that no source has keeps its row, or stays without one. */
  lemma {:induction false} OtherSourcesStay(rows: Sources, memory: Id, sources: seq<SourceInput>, now: int,
                                            key: SourceKey)
    requires forall i: nat :: i < |sources| ==> KeyOfSource(memory, sources[i]) != key
    ensures SourceAt(WithSources(rows, memory, sources, now), key) == SourceAt(rows, key)
    decreases |sources|
  {
    if sources != [] {
      OtherSourcesStay(rows, memory, sources[..|sources| - 1], now, key);
    }
  }

  /** The first source with a key gives its row, if there was none. */
  lemma {:induction false} FirstSourceCounts(rows: Sources, memory: Id, sources: seq<SourceInput>, now: int, i: nat)
    requires i < |sources| && IsFirst(memory, sources, i, KeyOfSource(memory, sources[i]))
    ensures var key := KeyOfSource(memory, sources[i]);
            SourceAt(WithSources(rows, memory, sources, now), key) ==
            if key in rows then Some(rows[key]) else Some(RowOfSource(sources[i], now))
    decreases |sources|
  {
    var n := |sources| - 1;
    if i < n {
      FirstSourceCounts(rows, memory, sources[..n], now, i);
    } else {
      OtherSourcesStay(rows, memory, sources[..n], now, KeyOfSource(memory, sources[i]));
    }
  }

  // ---------------------------------------------------------------- relations

  datatype LinkKind = DuplicateLink | ConflictLink | SupportLink | ServiceLink

  /** The columns a row of scry_memory_relations is unique for: from, to and type. */
  type LinkKey = (Id, Id, LinkKind)

  datatype Relation = Relation(org: Id, score: real, at: int)

  type Relations = map<LinkKey, Relation>

  datatype Likeness = Likeness(similarity: (Item, Item) -> real, contradiction: (Item, Item) -> real)

  datatype Link = Link(kind: LinkKind, score: real)

  /** How a new memory relates to another one. */
  function LinkTo(item: Item, other: Item, like: Likeness): Option<Link> {
    var similarity, contradiction := like.similarity(item, other), like.contradiction(item, other);
    if item.hash == other.hash || similarity >= 0.86 then
      Some(Link(DuplicateLink, ClampScore(Max(similarity, 0.9) * 100.0)))
    else if contradiction >= 0.5 && similarity >= 0.12 then
      Some(Link(ConflictLink, ClampScore((contradiction * 0.7 + similarity * 0.3) * 100.0)))
    else if item.service != [] && item.service == other.service && similarity >= 0.34 then
      Some(Link(SupportLink, ClampScore(similarity * 100.0)))
    else if item.service != [] && item.service == other.service then Some(Link(ServiceLink, 100.0))
    else None
  }

  /** INSERT OR IGNORE of the relation to one other memory. */
  function WithLink(rows: Relations, id: Id, item: Item, other: Entry, like: Likeness, now: int): Relations {
    match LinkTo(item, other.item, like)
    case None => rows
    case Some(link) =>
      if (id, other.id, link.kind) in rows then rows
      else rows[(id, other.id, link.kind) := Relation(item.org, link.score, now)]
  }

  function WithLinks(rows: Relations, id: Id, item: Item, others: seq<Entry>, like: Likeness, now: int): Relations
    decreases |others|
  {
    if others == [] then rows
    else
      WithLink(WithLinks(rows, id, item, others[..|others| - 1], like, now), id, item, others[|others| - 1], like, now)
  }

  function RelationAt(rows: Relations, key: LinkKey): Option<Relation> {
    if key in rows then Some(rows[key]) else None
  }

  /** After linking, a relation to one of the others is as it was, or that of its kind, if it is of that kind. */
  lemma {:induction false} LinksOfOther(rows: Relations, id: Id, item: Item, others: seq<Entry>, like: Likeness,
                                        now: int, i: nat, kind: LinkKind)
    requires i < |others| && forall a: nat, b: nat :: a < b < |others| ==> others[a].id != others[b].id
    ensures var key, link := (id, others[i].id, kind), LinkTo(item, others[i].item, like);
            RelationAt(WithLinks(rows, id, item, others, like, now), key) ==
            if key in rows then Some(rows[key])
            else if link.Some? && link.value.kind == kind then Some(Relation(item.org, link.value.score, now))
            else None
    decreases |others|
  {
    var n := |others| - 1;
    if i < n {
      LinksOfOther(rows, id, item, others[..n], like, now, i, kind);
    } else {
      LinksElsewhere(rows, id, item, others[..n], like, now, (id, others[i].id, kind));
    }
  }

  /** No other relation comes, goes or changes. */
  lemma {:induction false} LinksElsewhere(rows: Relations, id: Id, item: Item, others: seq<Entry>, like: Likeness,
                                          now: int, key: LinkKey)
    requires key.0 != id || forall i: nat :: i < |others| ==> others[i].id != key.1
    ensures RelationAt(WithLinks(rows, id, item, others, like, now), key) == RelationAt(rows, key)
    decreases |others|
  {
    if others != [] {
      LinksElsewhere(rows, id, item, others[..|others| - 1], like, now, key);
    }
  }

  /** The answers to the query for the others: the 300 newest rows of the organization that are not forgotten. */
  ghost predicate IsNewest(s: Store, org: Id, others: seq<Id>) {
    && |others| <= 300
    && (forall i: nat :: i < |others| ==> IsLive(s, org, others[i]))
    && (forall i: nat, j: nat :: i < j < |others| ==>
          others[i] != others[j] && s.items[others[i]].updatedAt >= s.items[others[j]].updatedAt)
    && (forall id :: IsLive(s, org, id) && id !in others ==>
          |others| == 300 && forall i: nat :: i < |others| ==> s.items[others[i]].updatedAt >= s.items[id].updatedAt)
  }

  predicate IsLive(s: Store, org: Id, id: Id) {
    id in s.items && s.items[id].org == org && s.items[id].status != Forgotten
  }

  function Entries(s: Store, ids: seq<Id>): (entries: seq<Entry>)
    requires forall i: nat :: i < |ids| ==> ids[i] in s.items
    ensures |entries| == |ids| && forall i: nat :: i < |ids| ==> entries[i] == Entry(ids[i], s.items[ids[i]])
  {
    seq(|ids|, i requires 0 <= i < |ids| => Entry(ids[i], s.items[ids[i]]))
  }

  /** An inserted memory has no relation to one with its own content: its content would have been reinforced. */
  lemma {:induction false} NoEqualContent(s: Store, input: Input, actor: Actor, now: int, texts: Texts, others: seq<Id>,
                                          i: nat)
    requires IsLookup(s, actor.org, input.json, None) && IsNewest(s, actor.org, others) && i < |others|
    ensures s.items[others[i]].hash != NewItem(input, actor, now, texts).hash
  {
    assert IsLive(s, actor.org, others[i]);
  }

  // ---------------------------------------------------------------- audit events

  datatype Report = Report(
    scanned: nat, decayed: nat, reinforced: nat, merged: nat, conflicts: nat, archived: nat, expired: nat)

  datatype Audit =
    | MemoryCreated(id: Id, trace: Id, org: Id, user: Id, suspended: bool)
    | MemoryForgotten(id: Id, org: Id, user: Id, before: Status)
    | Maintained(org: Id, user: Id, report: Report)

  /** The trace of the first source, or the memory itself. */
  function TraceOf(input: Input, id: Id): Id {
    if input.sources != [] && input.sources[0].trace != "" then input.sources[0].trace else id
  }

  // ---------------------------------------------------------------- the tables

  datatype Notes = Notes(sources: Sources, relations: Relations, audits: seq<Audit>)

  /** What an insert adds. */
  function WithInserted(n: Notes, id: Id, row: Item, input: Input, actor: Actor, others: seq<Entry>, suspended: bool,
                        now: int, like: Likeness): Notes {
    n.(relations := WithLinks(n.relations, id, row, others, like, now),
       audits := n.audits + [MemoryCreated(id, TraceOf(input, id), actor.org, actor.id, suspended)])
  }

  /** What createMemory adds. */
  function Noted(n: Notes, s: Store, input: Input, actor: Actor, found: Option<Id>, id: Id, others: seq<Id>, now: int,
                 like: Likeness, texts: Texts): Notes
    requires forall i: nat :: i < |others| ==> others[i] in s.items
  {
    if Refuse(input, actor).Some? then n
    else
      var n1 := n.(sources := WithSources(n.sources, found.Or(id), input.sources, now));
      if found.Some? then n1
      else WithInserted(n1, id, NewItem(input, actor, now, texts), input, actor, Entries(s, others),
                        Injected(input, texts), now, like)
  }

  class Journal {
    var sources: Sources
    var relations: Relations
    var audits: seq<Audit>

    function State(): Notes
      reads this
    {
      Notes(sources, relations, audits)
    }

    /** addMemorySources. */
    method AddMemorySources(memory: Id, inputs: seq<SourceInput>, now: int)
      modifies this`sources
      ensures sources == WithSources(old(sources), memory, inputs, now)
    {
      for i := 0 to |inputs|
        invariant sources == WithSources(old(sources), memory, inputs[..i], now)
      {
        assert inputs[..i + 1][..i] == inputs[..i];
        var source := inputs[i];
        var relation := if source.relation == "" then "derived_from" else source.relation;
        var key := (memory, source.kind, source.source, relation);
        if key !in sources {
          sources := sources[key := SourceRow(source.trace, ClampScore(source.weight.Or(100.0)), now)];
        }
      }
      assert inputs[..|inputs|] == inputs;
    }

    /** The loop of createMemoryRelations. */
    method CreateMemoryRelations(id: Id, item: Item, others: seq<Entry>, like: Likeness, now: int)
      modifies this`relations
      ensures relations == WithLinks(old(relations), id, item, others, like, now)
    {
      for i := 0 to |others|
        invariant relations == WithLinks(old(relations), id, item, others[..i], like, now)
      {
        assert others[..i + 1][..i] == others[..i];
        Relate(id, item, others[i], like, now);
      }
      assert others[..|others|] == others;
    }

    method Relate(id: Id, item: Item, other: Entry, like: Likeness, now: int)
      modifies this`relations
      ensures relations == WithLink(old(relations), id, item, other, like, now)
    {
      var similarity, contradiction := like.similarity(item, other.item), like.contradiction(item, other.item);
      var kind, score;
      if item.hash == other.item.hash || similarity >= 0.86 {
        kind, score := DuplicateLink, ClampScore(Max(similarity, 0.9) * 100.0);
      } else if contradiction >= 0.5 && similarity >= 0.12 {
        kind, score := ConflictLink, ClampScore((contradiction * 0.7 + similarity * 0.3) * 100.0);
      } else if item.service != [] && item.service == other.item.service && similarity >= 0.34 {
        kind, score := SupportLink, ClampScore(similarity * 100.0);
      } else if item.service != [] && item.service == other.item.service {
        kind, score := ServiceLink, 100.0;
      } else {
        return;
      }
      if (id, other.id, kind) !in relations {
        relations := relations[(id, other.id, kind) := Relation(item.org, score, now)];
      }
    }
  }
}
