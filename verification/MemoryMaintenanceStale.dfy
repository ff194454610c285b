/**
  What the stale snapshot of maintenance costs: the pair loop still treats memories as online that the first
  loop has just archived.
 */
module MemoryMaintenanceStale {

  import opened TextChunks
  import opened MemoryModel
  import opened MemoryLinks
  import opened MemoryMaintenance
  import opened MemoryMaintenanceTheorem

  /** The first loop archives the memory. */
  predicate AgesOut(item: Item, run: Run) {
    Expires(item, run.now) || Fades(item, run)
  }

  /** Exactly when a memory that the first loop archives ends archived: it loses no conflict against a later
      memory, and the last earlier one that takes it offline, if any, does so by a merge. An expired memory
      keeps vitality 0 exactly if no later memory is merged into it. */
  lemma {:induction false} AgedOutStaysArchivedIff(s: Store, ids: seq<Id>, limit: int, run: Run, texts: Texts, k: nat)
    returns (row: Item)
    requires Listed(s, run, limit, ids) && k < |ActiveOf(s, ids, run)| && AgesOut(ActiveOf(s, ids, run)[k].item, run)
    ensures RowAfter(s, ids, run, texts, ActiveOf(s, ids, run)[k].id) == Some(row)
    ensures var active := ActiveOf(s, ids, run);
            var last := LastFell(active, k, k, run);
            row.status == Archived <==>
            !Yields(active, k, |active|, run) && (last.None? || Merges(active[last.value].item, active[k].item, run))
    ensures var active := ActiveOf(s, ids, run);
            Expires(active[k].item, run.now) ==> (row.vitality == 0.0 <==> MergeCount(active, k, |active|, run) == 0)
  {
    row := OnlineRowsSettle(s, ids, limit, run, texts, k);
    var item := ActiveOf(s, ids, run)[k].item;
    assert AgedRow(item, item, run).status == Archived;
  }

  // ---------------------------------------------------------------- two memories

  const ALICE := Actor("alice", "org", false)

  /** A memory of Alice's with the given content, online, with the given confidence and expiry. */
  function Example(json: Text, confidence: real, expiresAt: int): Item {
    Item("org", "alice", "", "", Semantic, Personal, [], [], [], json, OfContent(json), [], [],
         confidence, 50.0, 50.0, 0, 0, Active, false, Plain([]), 0, 0, expiresAt, 0)
  }

  /** The contents 1 and 2; x expired at time 1, y never does. */
  const TWO := Store(map["x" := Example([49], 40.0, 1), "y" := Example([50], 60.0, 0)], map[], map[], [])

  /** A run at time 1 in which all texts are so similar and so contradictory. */
  function At(similarity: real, contradiction: real): Run {
    Run(ALICE, 1, Measures(Likeness((l: Item, r: Item) => similarity, (l: Item, r: Item) => contradiction),
                           (kind: Kind, age: int) => 100.0, (n: nat) => 0.0))
  }

  lemma TwoVisible(s: Store, a: Id, b: Id, actor: Actor)
    requires a in s.items && b in s.items && Visible(s.items[a], actor, NO_SCENE)
             && Visible(s.items[b], actor, NO_SCENE)
    ensures VisibleIds(s, [a, b], actor) == [a, b]
  {
    assert [a, b][..1] == [a] && [a][..0] == [];
    assert VisibleIds(s, [a], actor) == [] + [a];
  }

  lemma TwoInSnapshot(s: Store, a: Id, b: Id, actor: Actor)
    requires a in s.items && b in s.items && s.items[a].scope != Organization && s.items[b].scope != Organization
    ensures Snapshot(s, [a, b], actor) == [Entry(a, s.items[a]), Entry(b, s.items[b])]
  {
    assert [a, b][..1] == [a] && [a][..0] == [];
    assert Snapshot(s, [a], actor) == [] + [Entry(a, s.items[a])];
  }

  lemma TwoOnline(x: Entry, y: Entry)
    requires IsOnline(x.item.status) && IsOnline(y.item.status)
    ensures Online([x, y]) == [x, y]
  {
    assert [x, y][..1] == [x] && [x][..0] == [];
    assert Online([x]) == [] + [x];
  }

  lemma TwoAreActive(s: Store, a: Id, b: Id, run: Run)
    requires a in s.items && b in s.items
    requires Visible(s.items[a], run.actor, NO_SCENE) && Visible(s.items[b], run.actor, NO_SCENE)
    requires s.items[a].scope != Organization && s.items[b].scope != Organization
    requires IsOnline(s.items[a].status) && IsOnline(s.items[b].status)
    ensures ActiveOf(s, [a, b], run) == [Entry(a, s.items[a]), Entry(b, s.items[b])]
  {
    TwoVisible(s, a, b, run.actor);
    TwoInSnapshot(s, a, b, run.actor);
    TwoOnline(Entry(a, s.items[a]), Entry(b, s.items[b]));
  }

  lemma TwoAreListed(run: Run)
    requires run.actor == ALICE
    ensures Listed(TWO, run, 500, ["x", "y"])
    ensures ActiveOf(TWO, ["x", "y"], run) == [Entry("x", TWO.items["x"]), Entry("y", TWO.items["y"])]
  {
    TwoAreActive(TWO, "x", "y", run);
  }

  /** The expired memory contradicts the other one with less confidence: it is archived by the first loop and ends
      suspended. */
  lemma ExpiredEndsSuspended(texts: Texts) returns (row: Item)
    ensures var run := At(0.5, 1.0);
            && Listed(TWO, run, 500, ["x", "y"]) && Expires(TWO.items["x"], run.now)
            && RowAfter(TWO, ["x", "y"], run, texts, "x") == Some(row) && row.status == Suspended
  {
    var run := At(0.5, 1.0);
    TwoAreListed(run);
    var active := ActiveOf(TWO, ["x", "y"], run);
    row := OnlineRowsSettle(TWO, ["x", "y"], 500, run, texts, 0);
    assert YieldsTo(active, 0, 1, run);
  }

  lemma OneMerge(active: seq<Entry>, run: Run)
    requires |active| == 2 && Merges(active[0].item, active[1].item, run)
    ensures MergeCount(active, 0, 2, run) == 1 && !Yields(active, 0, 2, run)
    ensures LastMerge(active, 1, 1, run) == Some(0) && LastFell(active, 1, 1, run) == Some(0)
    ensures !Yields(active, 1, 2, run)
  {
    assert MergeCount(active, 0, 1, run) == 0;
  }

  /** The texts are nearly the same: the other memory is merged into the expired one, which stays archived with
      a vitality of 5. */
  lemma ExpiredAbsorbs(texts: Texts) returns (row: Item)
    ensures var run := At(1.0, 0.0);
            && Listed(TWO, run, 500, ["x", "y"]) && Expires(TWO.items["x"], run.now)
            && RowAfter(TWO, ["x", "y"], run, texts, "x") == Some(row)
            && row.status == Archived && row.vitality == 5.0 && row.reinforcements == 1
  {
    var run := At(1.0, 0.0);
    TwoAreListed(run);
    row := OnlineRowsSettle(TWO, ["x", "y"], 500, run, texts, 0);
    OneMerge(ActiveOf(TWO, ["x", "y"], run), run);
  }

  /** ... and the other memory, which has not expired, is archived in its favour. */
  lemma AbsorbedByExpired(texts: Texts) returns (row: Item)
    ensures var run := At(1.0, 0.0);
            && !Expires(TWO.items["y"], run.now)
            && RowAfter(TWO, ["x", "y"], run, texts, "y") == Some(row)
            && row.status == Archived && row.note == MergedInto("x")
  {
    var run := At(1.0, 0.0);
    TwoAreListed(run);
    row := OnlineRowsSettle(TWO, ["x", "y"], 500, run, texts, 1);
    OneMerge(ActiveOf(TWO, ["x", "y"], run), run);
  }
}
