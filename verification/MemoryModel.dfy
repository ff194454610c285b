/**
  The memory store on values (memory/index.ts): creating, reinforcing, updating, forgetting and reading memories,
  and the lazily built chunk index, as functions on the tables. The pure text functions of the source (parsing,
  redaction, injection detection, keywords) are parameters, sha256 is injective, and an answer the database may
  choose freely is a parameter of its own.
 */
module MemoryModel {

  import opened TextChunks
  import opened MemoryChunks

  datatype Option<T> = None | Some(value: T) {
    function Or(other: T): T {
      if Some? then value else other
    }
  }

  type Id = string

  datatype Kind = Working | Episodic | Semantic | Procedural
  datatype Scope = Organization | Personal | Agent | Thread | Workflow
  datatype Status = Active | Verified | Suspended | Archived | Forgotten

  /** What the column content_hash is the sha256 of. */
  datatype Hash = OfContent(json: Text) | OfForgotten(id: Id, time: int)

  datatype Note = Plain(text: Text) | MergedInto(target: Id)

  datatype Actor = Actor(id: Id, org: Id, admin: bool)

  /** The thread and the workflow a caller names; the empty id is none. */
  datatype Scene = Scene(thread: Id, workflow: Id)

  const NO_SCENE := Scene("", "")

  /** A row of scry_memory_items. */
  datatype Item = Item(
    org: Id, user: Id, thread: Id, workflow: Id, kind: Kind, scope: Scope, service: Text,
    title: Text, summary: Text, json: Text, hash: Hash, tags: seq<Text>, keywords: seq<Text>,
    confidence: real, importance: real, vitality: real, accesses: nat, reinforcements: nat,
    status: Status, pinned: bool, note: Note,
    accessedAt: int, reinforcedAt: int, expiresAt: int, updatedAt: int)

  datatype ActionName =
    | Created | AutoSuspended | Reinforced | StatusSet | PinSet | Updated | Erasure
    | Expired | AutoArchived | Merged | ConflictSuspended

  /** A row of scry_memory_actions. */
  datatype Action = Action(memory: Id, user: Id, name: ActionName, before: Status, next: Status)

  /** The tables. scores is the confidence column of the chunk rows, which is the same in all rows of a memory. */
  datatype Store = Store(
    items: map<Id, Item>, chunks: map<Id, seq<Chunk>>, scores: map<Id, real>, actions: seq<Action>)

  /** The text functions the store calls. */
  datatype Texts = Texts(
    parse: Text -> Content,
    redact: Text -> Text,
    suspicious: Text -> bool,
    keywords: (Text, Text, Text, Text) -> seq<Text>)

  /** A source as the caller names it; an empty trace or relation is absent. */
  datatype SourceInput = SourceInput(kind: Id, source: Id, trace: Id, relation: Id, weight: Option<real>)

  datatype Input = Input(
    kind: Kind, scope: Scope, title: Text, summary: Text, json: Text, thread: Id, workflow: Id,
    service: Text, tags: seq<Text>, confidence: Option<real>, importance: Option<real>,
    status: Option<Status>, pinned: bool, note: Text, expiresAt: int, sources: seq<SourceInput>)

  datatype Patch = Patch(
    status: Option<Status>, pinned: Option<bool>, note: Option<Text>,
    confidence: Option<real>, importance: Option<real>)

  datatype Refusal = AdminOnly | ThreadMissing | WorkflowMissing

  /** Refused with an exception, or done: the memory, or null. */
  datatype Outcome = Refused(why: Refusal) | Done(memory: Option<Item>)

  const LINE: Text := [LINE_FEED]

  /** The text null. */
  const NULL_JSON: Text := [110, 117, 108, 108]

  /** The title of a forgotten memory. */
  const FORGOTTEN_TITLE: Text := [0x5DF2, 0x9057, 0x5FD8, 0x8BB0, 0x5FC6]

  /** A memory as a query returned it. */
  datatype Entry = Entry(id: Id, item: Item)

  // ---------------------------------------------------------------- scores and texts

  function Max(a: real, b: real): real {
    if a >= b then a else b
  }

  function Min(a: real, b: real): real {
    if a <= b then a else b
  }

  /** Math.max(0, Math.min(100, Math.round(value))) */
  function ClampScore(x: real): (r: real)
    ensures 0.0 <= r <= 100.0
  {
    Max(0.0, Min(100.0, (x + 0.5).Floor as real))
  }

  function CleanTitle(title: Text, texts: Texts): Text {
    Take(Trim(texts.redact(title)), 240)
  }

  function CleanSummary(summary: Text, texts: Texts): Text {
    Take(Trim(texts.redact(summary)), 4000)
  }

  /** The distinct, trimmed, non-empty tags in order of appearance. */
  function DistinctTags(tags: seq<Text>): seq<Text> {
    if tags == [] then []
    else
      var before, tag := DistinctTags(tags[..|tags| - 1]), Trim(tags[|tags| - 1]);
      if tag == [] || tag in before then before else before + [tag]
  }

  // ---------------------------------------------------------------- reading

  /** isVisible. */
  predicate Visible(item: Item, actor: Actor, scene: Scene) {
    item.org == actor.org &&
    match item.scope
    case Organization => true
    case Thread => scene.thread != "" && item.thread == scene.thread
    case Workflow => (scene.workflow != "" && item.workflow == scene.workflow) || item.user == actor.id
    case _ => item.user == actor.id
  }

  function ChunksOf(s: Store, id: Id): seq<Chunk> {
    if id in s.chunks then s.chunks[id] else []
  }

  function ScoreOf(s: Store, id: Id): Option<real> {
    if id in s.scores then Some(s.scores[id]) else None
  }

  /** The index of a row. */
  function IndexOf(item: Item, texts: Texts): seq<Chunk> {
    Build(item.title, item.summary, texts.parse(item.json))
  }

  /** hydrateMemories for one row: the index is built when it is missing. */
  function HydrateOne(s: Store, id: Id, texts: Texts): Store
    requires id in s.items
  {
    if s.items[id].status != Forgotten && ChunksOf(s, id) == []
    then s.(chunks := s.chunks[id := IndexOf(s.items[id], texts)], scores := s.scores[id := s.items[id].confidence])
    else s
  }

  function Hydrate(s: Store, ids: seq<Id>, texts: Texts): (t: Store)
    requires forall i: nat :: i < |ids| ==> ids[i] in s.items
    ensures t.items == s.items && t.actions == s.actions
    decreases |ids|
  {
    if ids == [] then s else HydrateOne(Hydrate(s, ids[..|ids| - 1], texts), ids[|ids| - 1], texts)
  }

  predicate Readable(s: Store, id: Id, actor: Actor, scene: Scene) {
    id in s.items && s.items[id].org == actor.org && (Visible(s.items[id], actor, scene) || actor.admin)
  }

  /** getMemory: the tables after it, and the row it returns. */
  function Get(s: Store, id: Id, actor: Actor, scene: Scene, texts: Texts): (Store, Option<Item>) {
    if Readable(s, id, actor, scene) then (HydrateOne(s, id, texts), Some(s.items[id])) else (s, None)
  }

  // ---------------------------------------------------------------- createMemory

  function Refuse(input: Input, actor: Actor): Option<Refusal> {
    if input.scope == Organization && !actor.admin then Some(AdminOnly)
    else if input.scope == Thread && input.thread == "" then Some(ThreadMissing)
    else if input.scope == Workflow && input.workflow == "" then Some(WorkflowMissing)
    else None
  }

  predicate Injected(input: Input, texts: Texts) {
    texts.suspicious(CleanTitle(input.title, texts) + LINE + CleanSummary(input.summary, texts) + LINE + input.json)
  }

  /** The confidence of a new memory; a suspicious one is capped at 35, and not clamped. */
  function NewConfidence(input: Input, texts: Texts): real {
    if Injected(input, texts) then Min(35.0, input.confidence.Or(70.0)) else ClampScore(input.confidence.Or(72.0))
  }

  function NewImportance(input: Input): real {
    ClampScore(input.importance.Or(60.0))
  }

  function NewItem(input: Input, actor: Actor, now: int, texts: Texts): Item {
    var title, summary := CleanTitle(input.title, texts), CleanSummary(input.summary, texts);
    var confidence, importance := NewConfidence(input, texts), NewImportance(input);
    Item(actor.org, actor.id, input.thread, input.workflow, input.kind, input.scope, Take(input.service, 160),
         title, summary, input.json, OfContent(input.json), Take(DistinctTags(input.tags), 40),
         texts.keywords(title, summary, Take(input.service, 160), input.json),
         confidence, importance, ClampScore(confidence * 0.45 + importance * 0.45 + 10.0), 0, 0,
         if Injected(input, texts) then Suspended else input.status.Or(Active), input.pinned,
         Plain(Take(texts.redact(input.note), 4000)), now, now, input.expiresAt, now)
  }

  /** The row an equal content reinforces. */
  function Reinforce(row: Item, confidence: real, importance: real, now: int): Item {
    row.(reinforcements := row.reinforcements + 1,
         vitality := ClampScore(Max(row.vitality, (confidence + importance) / 2.0) + 4.0),
         confidence := Max(row.confidence, confidence), importance := Max(row.importance, importance),
         reinforcedAt := now, updatedAt := now)
  }

  predicate SameContent(item: Item, org: Id, json: Text) {
    item.org == org && item.hash == OfContent(json)
  }

  /** The answers to the lookup: the newest row of that content that is not forgotten, or none. */
  ghost predicate IsLookup(s: Store, org: Id, json: Text, found: Option<Id>) {
    match found
    case None => forall id :: id in s.items && SameContent(s.items[id], org, json) ==> s.items[id].status == Forgotten
    case Some(best) =>
      && best in s.items && SameContent(s.items[best], org, json) && s.items[best].status != Forgotten
      && forall id :: id in s.items && SameContent(s.items[id], org, json) && s.items[id].status != Forgotten ==>
           s.items[id].updatedAt <= s.items[best].updatedAt
  }

  /** The row found is reinforced, or a new one inserted. */
  function Stored(s: Store, input: Input, actor: Actor, found: Option<Id>, id: Id, now: int, texts: Texts): Store
    requires found.Some? ==> found.value in s.items
  {
    match found
    case Some(held) =>
      var row := s.items[held];
      s.(items := s.items[held := Reinforce(row, NewConfidence(input, texts), NewImportance(input), now)],
         actions := s.actions + [Action(held, actor.id, Reinforced, row.status, row.status)])
    case None =>
      var row := NewItem(input, actor, now, texts);
      var name := if Injected(input, texts) then AutoSuspended else Created;
      s.(items := s.items[id := row], actions := s.actions + [Action(id, actor.id, name, row.status, row.status)])
  }

  /** createMemory, given the lookup's answer and the new id. */
  function Create(s: Store, input: Input, actor: Actor, found: Option<Id>, id: Id, now: int,
                  texts: Texts): (Store, Outcome)
    requires found.Some? ==> found.value in s.items
  {
    if Refuse(input, actor).Some? then (s, Refused(Refuse(input, actor).value))
    else
      var (t, memory) := Get(Stored(s, input, actor, found, id, now, texts), found.Or(id), actor,
                             Scene(input.thread, input.workflow), texts);
      (t, Done(memory))
  }

  // ---------------------------------------------------------------- updateMemory

  function KeptNote(note: Note, texts: Texts): Note {
    match note
    case Plain(text) => Plain(Take(texts.redact(text), 4000))
    case MergedInto(_) => note
  }

  function Patched(row: Item, patch: Patch, now: int, texts: Texts): Item {
    var next := patch.status.Or(row.status);
    var confidence := ClampScore(patch.confidence.Or(row.confidence));
    var importance := ClampScore(patch.importance.Or(row.importance));
    row.(status := next, pinned := patch.pinned.Or(row.pinned),
         note := if patch.note.Some? then Plain(Take(texts.redact(patch.note.value), 4000))
             else KeptNote(row.note, texts),
         confidence := confidence, importance := importance,
         vitality := if next == Verified
             then ClampScore(Max(row.vitality, confidence * 0.45 + importance * 0.45 + 10.0))
                     else row.vitality,
         reinforcedAt := if next == Verified then now else row.reinforcedAt,
         reinforcements := row.reinforcements + (if next == Verified && row.status != Verified then 1 else 0),
         updatedAt := now)
  }

  function PatchName(row: Item, next: Item): ActionName {
    if next.status != row.status then StatusSet else if next.pinned != row.pinned then PinSet else Updated
  }

  /** The chunks take over a confidence that changes. */
  function Rescored(scores: map<Id, real>, id: Id, row: Item, next: Item): map<Id, real> {
    if next.confidence != row.confidence then scores[id := next.confidence] else scores
  }

  /** The three updates of a patch. */
  function Written(s: Store, id: Id, actor: Actor, row: Item, next: Item): Store {
    s.(items := s.items[id := next], scores := Rescored(s.scores, id, row, next),
       actions := s.actions + [Action(id, actor.id, PatchName(row, next), row.status, next.status)])
  }

  function Update(s: Store, id: Id, actor: Actor, patch: Patch, now: int, texts: Texts): (Store, Outcome) {
    var (s1, memory) := Get(s, id, actor, NO_SCENE, texts);
    if memory.None? then (s1, Done(None))
    else
      var row := memory.value;
      if row.scope == Organization && !actor.admin then (s1, Refused(AdminOnly))
      else
        var next := Patched(row, patch, now, texts);
        var s2 := Written(s1, id, actor, row, next);
        var (s3, updated) := Get(s2, id, actor, NO_SCENE, texts);
        (s3, Done(updated))
  }

  // ---------------------------------------------------------------- forgetMemory

  function Erased(row: Item, id: Id, now: int): Item {
    row.(title := FORGOTTEN_TITLE, summary := [], json := NULL_JSON, tags := [], keywords := [], service := [],
         hash := OfForgotten(id, now), status := Forgotten, pinned := false, vitality := 0.0, note := Plain([]),
         updatedAt := now)
  }

  function Wiped(s: Store, id: Id, actor: Actor, row: Item, now: int): Store {
    s.(items := s.items[id := Erased(row, id, now)], chunks := s.chunks - {id}, scores := s.scores - {id},
       actions := s.actions + [Action(id, actor.id, Erasure, row.status, Forgotten)])
  }

  function Forget(s: Store, id: Id, actor: Actor, now: int, texts: Texts): (Store, Outcome) {
    var (s1, memory) := Get(s, id, actor, NO_SCENE, texts);
    if memory.None? then (s1, Done(None))
    else
      var row := memory.value;
      if row.scope == Organization && !actor.admin then (s1, Refused(AdminOnly))
      else
        var s2 := Wiped(s1, id, actor, row, now);
        var (s3, skeleton) := Get(s2, id, actor, NO_SCENE, texts);
        (s3, Done(skeleton))
  }

  // ---------------------------------------------------------------- retrieveMemories: its writes

  function Touched(row: Item, now: int): Item {
    row.(accesses := row.accesses + 1, accessedAt := now, vitality := Min(100.0, row.vitality + 1.0), updatedAt := now)
  }

  function Touch(s: Store, ids: seq<Id>, now: int): (t: Store)
    requires forall i: nat :: i < |ids| ==> ids[i] in s.items
    ensures t.items.Keys == s.items.Keys && t.chunks == s.chunks && t.scores == s.scores && t.actions == s.actions
    decreases |ids|
  {
    if ids == [] then s
    else
      var t := Touch(s, ids[..|ids| - 1], now);
      var id := ids[|ids| - 1];
      t.(items := t.items[id := Touched(t.items[id], now)])
  }

  /** retrieveMemories: the candidates are listed, which indexes them, and the chosen ones are touched. */
  function Retrieve(s: Store, listed: seq<Id>, chosen: seq<Id>, now: int, texts: Texts): Store
    requires forall i: nat :: i < |listed| ==> listed[i] in s.items
    requires forall i: nat :: i < |chosen| ==> chosen[i] in listed
  {
    var t := Hydrate(s, listed, texts);
    assert forall i: nat :: i < |chosen| ==> chosen[i] in t.items;
    Touch(t, chosen, now)
  }
}
