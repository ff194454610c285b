/**
  maintainMemories (memory/index.ts): a listed snapshot of the memories is aged one by one, then its online
  items are compared pair by pair. Both passes write rows of the database but decide on the
  snapshot, so the second pass does not see what the first one did. Text similarity, contradiction,
  the half-life decay and log1p are parameters.
 */
module MemoryMaintenance {

  import opened MemoryModel
  import opened MemoryLinks
  import opened MemoryStore

  datatype Measures = Measures(
    like: Likeness,
    recency: (Kind, int) -> real,
    log1p: nat -> real)

  /** Who maintains, when, and with which measures. */
  datatype Run = Run(actor: Actor, now: int, m: Measures)

  datatype Pass = Pass(store: Store, report: Report)

  // ---------------------------------------------------------------- the snapshot

  /** a may come before b: ORDER BY pinned DESC, vitality DESC, updated_at DESC. */
  predicate Ranks(a: Item, b: Item) {
    if a.pinned != b.pinned then a.pinned
    else if a.vitality != b.vitality then a.vitality > b.vitality
    else a.updatedAt >= b.updatedAt
  }

  /** The LIMIT of the listing; zero counts as absent. */
  function RowLimit(limit: int): (n: nat)
    ensures 1 <= n <= 500
  {
    var asked := if limit < 500 then limit else 500;
    if asked == 0 then 200 else if asked < 1 then 1 else asked
  }

  /** The answers to the listing: the first rows of an organization in that order, ties in any order. */
  ghost predicate IsListing(s: Store, org: Id, limit: int, ids: seq<Id>) {
    && |ids| <= RowLimit(limit)
    && (forall i: nat :: i < |ids| ==> ids[i] in s.items && s.items[ids[i]].org == org)
    && (forall i: nat, j: nat :: i < j < |ids| ==> ids[i] != ids[j] && Ranks(s.items[ids[i]], s.items[ids[j]]))
    && (forall id :: id in s.items && s.items[id].org == org && id !in ids ==>
          |ids| == RowLimit(limit) && forall i: nat :: i < |ids| ==> Ranks(s.items[ids[i]], s.items[id]))
  }

  function VisibleIds(s: Store, ids: seq<Id>, actor: Actor): (r: seq<Id>)
    requires forall i: nat :: i < |ids| ==> ids[i] in s.items
    ensures forall i: nat :: i < |r| ==> r[i] in s.items
    decreases |ids|
  {
    if ids == [] then []
    else
      var n := |ids| - 1;
      VisibleIds(s, ids[..n], actor) + (if Visible(s.items[ids[n]], actor, NO_SCENE) then [ids[n]] else [])
  }

  /** Everybody but an administrator leaves the memories of the organization alone. */
  function Snapshot(s: Store, ids: seq<Id>, actor: Actor): (r: seq<Entry>)
    requires forall i: nat :: i < |ids| ==> ids[i] in s.items
    ensures forall i: nat :: i < |r| ==> r[i].id in s.items && r[i].item == s.items[r[i].id]
    decreases |ids|
  {
    if ids == [] then []
    else
      var n := |ids| - 1;
      Snapshot(s, ids[..n], actor)
      + (if actor.admin || s.items[ids[n]].scope != Organization then [Entry(ids[n], s.items[ids[n]])] else [])
  }

  predicate IsOnline(status: Status) {
    status == Active || status == Verified
  }

  function Online(entries: seq<Entry>): (r: seq<Entry>)
    ensures forall i: nat :: i < |r| ==> IsOnline(r[i].item.status)
    decreases |entries|
  {
    if entries == [] then []
    else
      var n := |entries| - 1;
      Online(entries[..n]) + (if IsOnline(entries[n].item.status) then [entries[n]] else [])
  }

  lemma {:induction false} VisibleFrom(s: Store, ids: seq<Id>, actor: Actor, i: nat)
    requires (forall k: nat :: k < |ids| ==> ids[k] in s.items) && i < |VisibleIds(s, ids, actor)|
    ensures VisibleIds(s, ids, actor)[i] in ids && Visible(s.items[VisibleIds(s, ids, actor)[i]], actor, NO_SCENE)
    decreases |ids|
  {
    if i < |VisibleIds(s, ids[..|ids| - 1], actor)| {
      VisibleFrom(s, ids[..|ids| - 1], actor, i);
    }
  }

  /** Nobody but an administrator maintains a memory of the organization. */
  lemma {:induction false} SnapshotFrom(s: Store, ids: seq<Id>, actor: Actor, i: nat)
    requires (forall k: nat :: k < |ids| ==> ids[k] in s.items) && i < |Snapshot(s, ids, actor)|
    ensures Snapshot(s, ids, actor)[i].id in ids
    ensures actor.admin || Snapshot(s, ids, actor)[i].item.scope != Organization
    decreases |ids|
  {
    if i < |Snapshot(s, ids[..|ids| - 1], actor)| {
      SnapshotFrom(s, ids[..|ids| - 1], actor, i);
    }
  }

  lemma {:induction false} OnlineFrom(entries: seq<Entry>, i: nat)
    requires i < |Online(entries)|
    ensures Online(entries)[i] in entries
    decreases |entries|
  {
    if i < |Online(entries[..|entries| - 1])| {
      OnlineFrom(entries[..|entries| - 1], i);
    }
  }

  // ---------------------------------------------------------------- the first pass

  predicate Expires(item: Item, now: int) {
    item.expiresAt > 0 && item.expiresAt <= now && !item.pinned
  }

  predicate Ages(item: Item, now: int) {
    item.status != Forgotten && !Expires(item, now) && !item.pinned && item.status != Verified
  }

  function Age(item: Item, now: int): nat {
    var last := if item.accessedAt >= item.reinforcedAt then item.accessedAt else item.reinforcedAt;
    if now - last >= 0 then now - last else 0
  }

  /** The vitality of an aged memory. */
  function AgedVitality(item: Item, run: Run): (v: real)
    ensures 0.0 <= v <= 100.0
  {
    var reinforcement := Min(100.0, item.reinforcements as real * 12.0 + run.m.log1p(item.accesses) * 10.0);
    ClampScore(item.importance * 0.34 + item.confidence * 0.32 + run.m.recency(item.kind, Age(item, run.now)) * 0.24
               + reinforcement * 0.1)
  }

  predicate Fades(item: Item, run: Run) {
    Ages(item, run.now) && item.status == Active && AgedVitality(item, run) < 20.0
  }

  /** The row of a memory after the first pass. */
  function AgedRow(row: Item, item: Item, run: Run): Item {
    if item.status == Forgotten then row
    else if Expires(item, run.now) then row.(status := Archived, vitality := 0.0, updatedAt := run.now)
    else if item.pinned || item.status == Verified then row
    else
      var v := AgedVitality(item, run);
      var row1 := if v != item.vitality then row.(vitality := v, updatedAt := run.now) else row;
      if v < 20.0 && item.status == Active then row1.(status := Archived, updatedAt := run.now) else row1
  }

  function AgeStep(p: Pass, e: Entry, run: Run): (q: Pass)
    requires e.id in p.store.items
    ensures q.store.items.Keys == p.store.items.Keys && q.store.chunks == p.store.chunks
            && q.store.scores == p.store.scores
  {
    var items := p.store.items[e.id := AgedRow(p.store.items[e.id], e.item, run)];
    var now := run.now;
    if e.item.status == Forgotten then p
    else if Expires(e.item, now) then
      Pass(p.store.(items := items, actions := p.store.actions
                    + [Action(e.id, run.actor.id, Expired, e.item.status, Archived)]),
           p.report.(expired := p.report.expired + 1))
    else if e.item.pinned || e.item.status == Verified then p
    else
      var v := AgedVitality(e.item, run);
      var report := if v != e.item.vitality then p.report.(decayed := p.report.decayed + 1) else p.report;
      if v < 20.0 && e.item.status == Active then
        Pass(p.store.(items := items, actions := p.store.actions
                      + [Action(e.id, run.actor.id, AutoArchived, Active, Archived)]),
             report.(archived := report.archived + 1))
      else Pass(p.store.(items := items), report)
  }

  function AgeAll(p: Pass, entries: seq<Entry>, run: Run): (q: Pass)
    requires forall i: nat :: i < |entries| ==> entries[i].id in p.store.items
    ensures q.store.items.Keys == p.store.items.Keys && q.store.chunks == p.store.chunks
            && q.store.scores == p.store.scores
    decreases |entries|
  {
    if entries == [] then p else AgeStep(AgeAll(p, entries[..|entries| - 1], run), entries[|entries| - 1], run)
  }

  // ---------------------------------------------------------------- the second pass

  predicate Comparable(l: Item, r: Item) {
    l.kind == r.kind && (l.service != [] && r.service != [] ==> l.service == r.service)
  }

  /** The right memory is merged into the left one. */
  predicate Merges(l: Item, r: Item, run: Run) {
    Comparable(l, r) && run.m.like.similarity(l, r) >= 0.88 && !r.pinned && r.status != Verified
  }

  predicate Conflicts(l: Item, r: Item, run: Run) {
    Comparable(l, r) && !Merges(l, r, run) && run.m.like.similarity(l, r) >= 0.12
        && run.m.like.contradiction(l, r) >= 0.5
  }

  predicate Protected(item: Item) {
    item.pinned || item.status == Verified
  }

  predicate LeftIsWeaker(l: Item, r: Item) {
    l.confidence <= r.confidence
  }

  function Absorbing(row: Item, now: int): Item {
    row.(reinforcements := row.reinforcements + 1, vitality := Min(100.0, row.vitality + 5.0), reinforcedAt := now,
         updatedAt := now)
  }

  function Absorbed(row: Item, target: Id, now: int): Item {
    row.(status := Archived, note := MergedInto(target), updatedAt := now)
  }

  function Weaker(l: Entry, r: Entry): Entry {
    if LeftIsWeaker(l.item, r.item) then l else r
  }

  predicate Suspends(l: Entry, r: Entry, run: Run) {
    Conflicts(l.item, r.item, run) && !Protected(Weaker(l, r).item)
  }

  /** The updates of one comparison, as they reach the row with the given id. */
  function PairUpdate(row: Item, id: Id, l: Entry, r: Entry, run: Run): Item {
    if Merges(l.item, r.item, run) then
      var row1 := if id == l.id then Absorbing(row, run.now) else row;
      if id == r.id then Absorbed(row1, l.id, run.now) else row1
    else if Suspends(l, r, run) && id == Weaker(l, r).id then row.(status := Suspended, updatedAt := run.now)
    else row
  }

  function PairItems(items: map<Id, Item>, l: Entry, r: Entry, run: Run): map<Id, Item> {
    map id | id in items :: PairUpdate(items[id], id, l, r, run)
  }

  function PairActions(l: Entry, r: Entry, run: Run): seq<Action> {
    if Merges(l.item, r.item, run) then [Action(r.id, run.actor.id, Merged, r.item.status, Archived)]
    else if Suspends(l, r, run) then
      [Action(Weaker(l, r).id, run.actor.id, ConflictSuspended, Weaker(l, r).item.status, Suspended)]
    else []
  }

  function PairReport(report: Report, l: Entry, r: Entry, run: Run): Report {
    if Merges(l.item, r.item, run) then report.(merged := report.merged + 1, reinforced := report.reinforced + 1)
    else if Conflicts(l.item, r.item, run) then report.(conflicts := report.conflicts + 1)
    else report
  }

  function PairStep(p: Pass, l: Entry, r: Entry, run: Run): Pass {
    Pass(p.store.(items := PairItems(p.store.items, l, r, run), actions := p.store.actions + PairActions(l, r, run)),
         PairReport(p.report, l, r, run))
  }

  /** The pairs (i, i + 1) up to (i, j - 1). */
  function PairRow(p: Pass, active: seq<Entry>, i: nat, j: nat, run: Run): Pass
    requires i < j <= |active|
    decreases j
  {
    if j == i + 1 then p else PairStep(PairRow(p, active, i, j - 1, run), active[i], active[j - 1], run)
  }

  /** All pairs whose left memory is one of the first i. */
  function PairRows(p: Pass, active: seq<Entry>, i: nat, run: Run): Pass
    requires i <= |active|
  {
    if i == 0 then p else PairRow(PairRows(p, active, i - 1, run), active, i - 1, |active|, run)
  }

  // ---------------------------------------------------------------- the conflicts it records

  function ConflictRow(l: Entry, r: Entry, run: Run): Relation {
    Relation(run.actor.org, ClampScore(run.m.like.similarity(l.item, r.item) * 30.0 + 70.0), run.now)
  }

  /** INSERT OR IGNORE: a pair that has a row keeps it. */
  function PairConflict(rows: Relations, l: Entry, r: Entry, run: Run): Relations {
    if Conflicts(l.item, r.item, run) && (l.id, r.id, ConflictLink) !in rows
        then rows[(l.id, r.id, ConflictLink) := ConflictRow(l, r, run)] else rows
  }

  /** The pairs (i, i + 1) up to (i, j - 1). */
  function RowConflicts(rows: Relations, active: seq<Entry>, i: nat, j: nat, run: Run): Relations
    requires i < j <= |active|
    decreases j
  {
    if j == i + 1 then rows else PairConflict(RowConflicts(rows, active, i, j - 1, run), active[i], active[j - 1], run)
  }

  /** The rows, the report and the relations while pairs are compared. */
  datatype Progress = Progress(pass: Pass, conflicts: Relations)

  function Compared(d: Progress, l: Entry, r: Entry, run: Run): Progress {
    Progress(PairStep(d.pass, l, r, run), PairConflict(d.conflicts, l, r, run))
  }

  /** d' is reached from d by comparing the pairs (i, i + 1) up to (i, j - 1). */
  ghost predicate IsRowDone(d: Progress, d': Progress, active: seq<Entry>, i: nat, j: nat, run: Run)
    requires i < j <= |active|
    decreases j
  {
    if j == i + 1 then d' == d
    else exists before :: IsCompared(before, d', active, i, j, run) && IsRowDone(d, before, active, i, j - 1, run)
  }

  /** The last of those pairs is compared. */
  predicate IsCompared(d: Progress, d': Progress, active: seq<Entry>, i: nat, j: nat, run: Run)
    requires i < j - 1 < |active|
  {
    d' == Compared(d, active[i], active[j - 1], run)
  }

  lemma RowDoneNext(d: Progress, before: Progress, d': Progress, active: seq<Entry>, i: nat, j: nat, run: Run)
    requires i < j < |active| && IsRowDone(d, before, active, i, j, run)
             && d' == Compared(before, active[i], active[j], run)
    ensures IsRowDone(d, d', active, i, j + 1, run)
  {
    assert IsCompared(before, d', active, i, j + 1, run);
  }

  lemma {:induction false} RowSplits(d: Progress, d': Progress, active: seq<Entry>, i: nat, j: nat, run: Run)
    requires i < j <= |active| && IsRowDone(d, d', active, i, j, run)
    ensures d' == Progress(PairRow(d.pass, active, i, j, run), RowConflicts(d.conflicts, active, i, j, run))
    decreases j
  {
    if j > i + 1 {
      var before :| IsCompared(before, d', active, i, j, run) && IsRowDone(d, before, active, i, j - 1, run);
      RowSplits(d, before, active, i, j - 1, run);
    }
  }

  /** All pairs whose left memory is one of the first i. */
  function AllConflicts(rows: Relations, active: seq<Entry>, i: nat, run: Run): Relations
    requires i <= |active|
  {
    if i == 0 then rows else RowConflicts(AllConflicts(rows, active, i - 1, run), active, i - 1, |active|, run)
  }

  /** Rows and relations after all pairs whose left memory is one of the first i. */
  ghost predicate AreRowsDone(p: Pass, q: Pass, rows: Relations, after: Relations, active: seq<Entry>, i: nat, run: Run)
    requires i <= |active|
  {
    q == PairRows(p, active, i, run) && after == AllConflicts(rows, active, i, run)
  }

  lemma RowsDoneNext(p: Pass, q: Pass, q': Pass, rows: Relations, after: Relations, after': Relations,
                     active: seq<Entry>, i: nat, run: Run)
    requires i < |active| && AreRowsDone(p, q, rows, after, active, i, run)
    requires IsRowDone(Progress(q, after), Progress(q', after'), active, i, |active|, run)
    ensures AreRowsDone(p, q', rows, after', active, i + 1, run)
  {
    RowSplits(Progress(q, after), Progress(q', after'), active, i, |active|, run);
  }

  // ---------------------------------------------------------------- one maintenance run

  function Scanned(s: Store, ids: seq<Id>, actor: Actor): (r: seq<Entry>)
    requires forall i: nat :: i < |ids| ==> ids[i] in s.items
    ensures forall i: nat :: i < |r| ==> r[i].id in s.items && r[i].item == s.items[r[i].id]
  {
    Snapshot(s, VisibleIds(s, ids, actor), actor)
  }

  function NewReport(n: nat): Report {
    Report(n, 0, 0, 0, 0, 0, 0)
  }

  /** The tables after the first pass, given the rows the listing returned. */
  function Aged(s: Store, ids: seq<Id>, run: Run, texts: Texts): (p: Pass)
    requires forall i: nat :: i < |ids| ==> ids[i] in s.items
    ensures p.store.items.Keys == s.items.Keys
  {
    var entries := Scanned(s, ids, run.actor);
    AgeAll(Pass(Hydrate(s, VisibleIds(s, ids, run.actor), texts), NewReport(|entries|)), entries, run)
  }

  function Maintain(s: Store, ids: seq<Id>, run: Run, texts: Texts): Pass
    requires forall i: nat :: i < |ids| ==> ids[i] in s.items
  {
    var active := Online(Scanned(s, ids, run.actor));
    PairRows(Aged(s, ids, run, texts), active, |active|, run)
  }

  /** maintainMemories. */
  method MaintainMemories(db: Database, journal: Journal, ids: seq<Id>, limit: int, actor: Actor, now: int, m: Measures,
                          texts: Texts)
    returns (report: Report)
    requires IsListing(db.State(), actor.org, limit, ids)
    modifies db, journal
    ensures Pass(db.State(), report) == Maintain(old(db.State()), ids, Run(actor, now, m), texts)
    ensures var active := Online(Scanned(old(db.State()), ids, actor));
            journal.relations == AllConflicts(old(journal.relations), active, |active|, Run(actor, now, m))
    ensures journal.audits == old(journal.audits) + [Maintained(actor.org, actor.id, report)]
  {
    var run := Run(actor, now, m);
    var visible := VisibleIds(db.State(), ids, actor);
    var items := Snapshot(db.State(), visible, actor);
    db.HydrateMemories(visible, texts);
    report := NewReport(|items|);
    report := AgeMemories(db, items, run, report);
    var active := Online(items);
    forall i: nat | i < |active| ensures active[i].id in db.items {
      OnlineFrom(items, i);
    }
    report := ComparePairs(db, journal, active, run, report);
    journal.audits := journal.audits + [Maintained(actor.org, actor.id, report)];
  }

  /** The first loop. */
  method AgeMemories(db: Database, items: seq<Entry>, run: Run, report: Report) returns (report': Report)
    requires forall i: nat :: i < |items| ==> items[i].id in db.items
    modifies db`items, db`actions
    ensures Pass(db.State(), report') == AgeAll(old(Pass(db.State(), report)), items, run)
  {
    report' := report;
    for i := 0 to |items|
      invariant Pass(db.State(), report') == AgeAll(old(Pass(db.State(), report)), items[..i], run)
    {
      assert items[..i + 1][..i] == items[..i];
      report' := AgeMemory(db, items[i], run, report');
    }
    assert items[..|items|] == items;
  }

  /** The second loop. */
  method ComparePairs(db: Database, journal: Journal, active: seq<Entry>, run: Run, report: Report)
    returns (report': Report)
    requires forall i: nat :: i < |active| ==> active[i].id in db.items
    modifies db`items, db`actions, journal`relations
    ensures Pass(db.State(), report') == PairRows(old(Pass(db.State(), report)), active, |active|, run)
    ensures journal.relations == AllConflicts(old(journal.relations), active, |active|, run)
  {
    ghost var p, rows := Pass(db.State(), report), journal.relations;
    report' := report;
    for leftIndex := 0 to |active|
      invariant db.items.Keys == old(db.items.Keys)
      invariant AreRowsDone(p, Pass(db.State(), report'), rows, journal.relations, active, leftIndex, run)
    {
      ghost var q, found := Pass(db.State(), report'), journal.relations;
      report' := CompareRow(db, journal, active, leftIndex, run, report');
      RowsDoneNext(p, q, Pass(db.State(), report'), rows, found, journal.relations, active, leftIndex, run);
    }
  }

  /** The inner loop. */
  method CompareRow(db: Database, journal: Journal, active: seq<Entry>, leftIndex: nat, run: Run, report: Report)
    returns (report': Report)
    requires leftIndex < |active| && forall i: nat :: i < |active| ==> active[i].id in db.items
    modifies db`items, db`actions, journal`relations
    ensures db.items.Keys == old(db.items.Keys)
    ensures IsRowDone(old(Progress(Pass(db.State(), report), journal.relations)),
                      Progress(Pass(db.State(), report'), journal.relations), active, leftIndex, |active|, run)
  {
    ghost var d := Progress(Pass(db.State(), report), journal.relations);
    report' := report;
    for rightIndex := leftIndex + 1 to |active|
      invariant db.items.Keys == old(db.items.Keys)
      invariant IsRowDone(d, Progress(Pass(db.State(), report'), journal.relations), active, leftIndex, rightIndex, run)
    {
      report' := CompareNext(db, journal, active, leftIndex, rightIndex, run, report', d);
    }
  }

  /** One pair more than the ones before. */
  method CompareNext(db: Database, journal: Journal, active: seq<Entry>, i: nat, j: nat, run: Run, report: Report,
                     ghost d: Progress)
    returns (report': Report)
    requires i < j < |active| && active[i].id in db.items && active[j].id in db.items
    requires IsRowDone(d, Progress(Pass(db.State(), report), journal.relations), active, i, j, run)
    modifies db`items, db`actions, journal`relations
    ensures db.items.Keys == old(db.items.Keys)
    ensures IsRowDone(d, Progress(Pass(db.State(), report'), journal.relations), active, i, j + 1, run)
  {
    ghost var before := Progress(Pass(db.State(), report), journal.relations);
    report' := ComparePair(db, journal, active[i], active[j], run, report);
    RowDoneNext(d, before, Progress(Pass(db.State(), report'), journal.relations), active, i, j, run);
  }

  /** The body of the first loop. */
  method AgeMemory(db: Database, e: Entry, run: Run, report: Report) returns (report': Report)
    requires e.id in db.items
    modifies db`items, db`actions
    ensures Pass(db.State(), report') == AgeStep(old(Pass(db.State(), report)), e, run)
  {
    var item, now := e.item, run.now;
    report' := report;
    if item.status == Forgotten {
      return;
    }
    if item.expiresAt > 0 && item.expiresAt <= now && !item.pinned {
      db.items := db.items[e.id := db.items[e.id].(status := Archived, vitality := 0.0, updatedAt := now)];
      db.AddAction(e.id, run.actor, Expired, item.status, Archived);
      report' := report'.(expired := report'.expired + 1);
      return;
    }
    if item.pinned || item.status == Verified {
      return;
    }
    var vitality := AgedVitality(item, run);
    ghost var row, before := db.items[e.id], db.items;
    if vitality != item.vitality {
      db.items := db.items[e.id := db.items[e.id].(vitality := vitality, updatedAt := now)];
      report' := report'.(decayed := report'.decayed + 1);
    }
    if vitality < 20.0 && item.status == Active {
      db.items := db.items[e.id := db.items[e.id].(status := Archived, updatedAt := now)];
      db.AddAction(e.id, run.actor, AutoArchived, item.status, Archived);
      report' := report'.(archived := report'.archived + 1);
    }
    assert db.items == before[e.id := AgedRow(row, item, run)];
  }

  /** The two updates of a merge. */
  method MergeRows(db: Database, left: Entry, right: Entry, run: Run)
    requires left.id in db.items && right.id in db.items && Merges(left.item, right.item, run)
    modifies db`items
    ensures db.items == PairItems(old(db.items), left, right, run)
  {
    var row := db.items[left.id];
    db.items := db.items[left.id := row.(reinforcements := row.reinforcements + 1,
                                         vitality := Min(100.0, row.vitality + 5.0),
                                         reinforcedAt := run.now, updatedAt := run.now)];
    db.items := db.items[right.id := db.items[right.id].(status := Archived, note := MergedInto(left.id),
                                                         updatedAt := run.now)];
  }

  method RecordConflict(journal: Journal, left: Entry, right: Entry, similarity: real, run: Run)
    requires similarity == run.m.like.similarity(left.item, right.item) && Conflicts(left.item, right.item, run)
    modifies journal`relations
    ensures journal.relations == PairConflict(old(journal.relations), left, right, run)
  {
    if (left.id, right.id, ConflictLink) !in journal.relations {
      var score := ClampScore(similarity * 30.0 + 70.0);
      journal.relations := journal.relations[(left.id, right.id, ConflictLink) :=
                                             Relation(run.actor.org, score, run.now)];
    }
  }

  /** The body of the second loop. */
  method ComparePair(db: Database, journal: Journal, left: Entry, right: Entry, run: Run, report: Report)
    returns (report': Report)
    requires left.id in db.items && right.id in db.items
    modifies db`items, db`actions, journal`relations
    ensures db.items.Keys == old(db.items.Keys)
    ensures Progress(Pass(db.State(), report'), journal.relations) ==
            Compared(old(Progress(Pass(db.State(), report), journal.relations)), left, right, run)
  {
    var l, r, now := left.item, right.item, run.now;
    report' := report;
    if l.kind != r.kind || (l.service != [] && r.service != [] && l.service != r.service) {
      return;
    }
    var similarity := run.m.like.similarity(l, r);
    if similarity >= 0.88 && !r.pinned && r.status != Verified {
      MergeRows(db, left, right, run);
      db.AddAction(right.id, run.actor, Merged, r.status, Archived);
      report' := report'.(merged := report'.merged + 1, reinforced := report'.reinforced + 1);
      return;
    }
    if similarity >= 0.12 && run.m.like.contradiction(l, r) >= 0.5 {
      RecordConflict(journal, left, right, similarity, run);
      var weaker := if l.confidence <= r.confidence then left else right;
      if !weaker.item.pinned && weaker.item.status != Verified {
        db.items := db.items[weaker.id := db.items[weaker.id].(status := Suspended, updatedAt := now)];
        db.AddAction(weaker.id, run.actor, ConflictSuspended, weaker.item.status, Suspended);
      }
      report' := report'.(conflicts := report'.conflicts + 1);
    }
  }
}
