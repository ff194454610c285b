/**
  What one maintenance run does to every row: where the pointers of merged memories go, who leaves online
  retrieval, which rows are untouched, and what the report counts. The pair loop is described by the
  snapshot alone, as if all pairs were looked at once.
 */
module MemoryMaintenanceTheorem {

  import opened MemoryModel
  import opened MemoryMaintenance

  // ---------------------------------------------------------------- the order of the snapshot

  /** The rows are distinct and come in the order of the listing. */
  ghost predicate InOrder(entries: seq<Entry>) {
    forall i: nat, j: nat :: i < j < |entries| ==>
      entries[i].id != entries[j].id && Ranks(entries[i].item, entries[j].item)
  }

  ghost predicate IdsInOrder(s: Store, ids: seq<Id>) {
    && (forall i: nat :: i < |ids| ==> ids[i] in s.items)
    && (forall i: nat, j: nat :: i < j < |ids| ==> ids[i] != ids[j] && Ranks(s.items[ids[i]], s.items[ids[j]]))
  }

  lemma {:induction false} VisibleInOrder(s: Store, ids: seq<Id>, actor: Actor)
    requires IdsInOrder(s, ids)
    ensures IdsInOrder(s, VisibleIds(s, ids, actor))
    decreases |ids|
  {
    if ids != [] {
      var n := |ids| - 1;
      VisibleInOrder(s, ids[..n], actor);
      var before := VisibleIds(s, ids[..n], actor);
      forall i: nat | i < |before| ensures before[i] != ids[n] && Ranks(s.items[before[i]], s.items[ids[n]]) {
        VisibleFrom(s, ids[..n], actor, i);
        var k: nat :| k < n && ids[k] == before[i];
      }
    }
  }

  lemma {:induction false} SnapshotInOrder(s: Store, ids: seq<Id>, actor: Actor)
    requires IdsInOrder(s, ids)
    ensures InOrder(Snapshot(s, ids, actor))
    decreases |ids|
  {
    if ids != [] {
      var n := |ids| - 1;
      SnapshotInOrder(s, ids[..n], actor);
      var before := Snapshot(s, ids[..n], actor);
      forall i: nat | i < |before| ensures before[i].id != ids[n] && Ranks(before[i].item, s.items[ids[n]]) {
        SnapshotFrom(s, ids[..n], actor, i);
        var k: nat :| k < n && ids[k] == before[i].id;
      }
    }
  }

  lemma {:induction false} OnlineInOrder(entries: seq<Entry>)
    requires InOrder(entries)
    ensures InOrder(Online(entries))
    decreases |entries|
  {
    if entries != [] {
      var n := |entries| - 1;
      OnlineInOrder(entries[..n]);
      var before := Online(entries[..n]);
      forall i: nat | i < |before| ensures before[i].id != entries[n].id && Ranks(before[i].item, entries[n].item) {
        OnlineFrom(entries[..n], i);
        var k: nat :| k < n && entries[k] == before[i];
      }
    }
  }

  lemma {:induction false} OnlineHolds(entries: seq<Entry>, k: nat) returns (i: nat)
    requires k < |entries| && IsOnline(entries[k].item.status)
    ensures i < |Online(entries)| && Online(entries)[i] == entries[k]
    decreases |entries|
  {
    var n := |entries| - 1;
    if k == n {
      i := |Online(entries[..n])|;
    } else {
      i := OnlineHolds(entries[..n], k);
    }
  }

  lemma {:induction false} ScannedInOrder(s: Store, org: Id, limit: int, ids: seq<Id>, actor: Actor)
    requires IsListing(s, org, limit, ids)
    ensures InOrder(Scanned(s, ids, actor)) && InOrder(Online(Scanned(s, ids, actor)))
  {
    VisibleInOrder(s, ids, actor);
    SnapshotInOrder(s, VisibleIds(s, ids, actor), actor);
    OnlineInOrder(Scanned(s, ids, actor));
  }

  // ---------------------------------------------------------------- the first pass, row by row

  lemma {:induction false} AgedElsewhere(p: Pass, entries: seq<Entry>, run: Run, id: Id)
    requires forall i: nat :: i < |entries| ==> entries[i].id in p.store.items
    requires id in p.store.items && forall i: nat :: i < |entries| ==> entries[i].id != id
    ensures AgeAll(p, entries, run).store.items[id] == p.store.items[id]
    decreases |entries|
  {
    if entries != [] {
      AgedElsewhere(p, entries[..|entries| - 1], run, id);
    }
  }

  lemma {:induction false} AgedHere(p: Pass, entries: seq<Entry>, run: Run, k: nat)
    requires InOrder(entries) && k < |entries|
    requires forall i: nat :: i < |entries| ==> entries[i].id in p.store.items
    ensures var e := entries[k]; AgeAll(p, entries, run).store.items[e.id] == AgedRow(p.store.items[e.id], e.item, run)
    decreases |entries|
  {
    var n := |entries| - 1;
    if k == n {
      AgedElsewhere(p, entries[..n], run, entries[k].id);
    } else {
      AgedHere(p, entries[..n], run, k);
    }
  }

  // ---------------------------------------------------------------- the second pass, row by row

  /** The last of the first m memories that k is merged into. */
  function LastMerge(active: seq<Entry>, k: nat, m: nat, run: Run): (r: Option<nat>)
    requires m <= k < |active|
    ensures r.Some? ==> r.value < m && Merges(active[r.value].item, active[k].item, run)
    ensures forall a: nat :: a < m && (r.Some? ==> r.value < a) ==> !Merges(active[a].item, active[k].item, run)
  {
    if m == 0 then None
    else if Merges(active[m - 1].item, active[k].item, run) then Some(m - 1)
    else LastMerge(active, k, m - 1, run)
  }

  /** How many of the memories after k and before b are merged into k. */
  function MergeCount(active: seq<Entry>, k: nat, b: nat, run: Run): nat
    requires k < b <= |active|
  {
    if b == k + 1 then 0
    else MergeCount(active, k, b - 1, run) + (if Merges(active[k].item, active[b - 1].item, run) then 1 else 0)
  }

  /** k loses a conflict against an earlier memory a. */
  predicate LosesTo(active: seq<Entry>, a: nat, k: nat, run: Run)
    requires a < k < |active|
  {
    Conflicts(active[a].item, active[k].item, run) && !LeftIsWeaker(active[a].item, active[k].item)
        && !Protected(active[k].item)
  }

  /** k loses a conflict against a later memory c. */
  predicate YieldsTo(active: seq<Entry>, k: nat, c: nat, run: Run)
    requires k < c < |active|
  {
    Conflicts(active[k].item, active[c].item, run) && LeftIsWeaker(active[k].item, active[c].item)
        && !Protected(active[k].item)
  }

  predicate Yields(active: seq<Entry>, k: nat, b: nat, run: Run)
    requires k < b <= |active|
  {
    exists c: nat :: k < c < b && YieldsTo(active, k, c, run)
  }

  /** The last of the first m memories that takes k offline. */
  function LastFell(active: seq<Entry>, k: nat, m: nat, run: Run): (r: Option<nat>)
    requires m <= k < |active|
    ensures r.Some? ==> r.value < m && (Merges(active[r.value].item, active[k].item, run)
                                        || LosesTo(active, r.value, k, run))
    ensures forall a: nat :: a < m && (r.Some? ==> r.value < a) ==>
              !Merges(active[a].item, active[k].item, run) && !LosesTo(active, a, k, run)
  {
    if m == 0 then None
    else if Merges(active[m - 1].item, active[k].item, run) || LosesTo(active, m - 1, k, run) then Some(m - 1)
    else LastFell(active, k, m - 1, run)
  }

  /** The status k is left in by its first m left partners and its right partners before b. */
  function Verdict(active: seq<Entry>, k: nat, m: nat, b: nat, aged: Status, run: Run): Status
    requires m <= k < b <= |active|
  {
    if Yields(active, k, b, run) then Suspended
    else
      var a := LastFell(active, k, m, run);
      if a.None? then aged else if Merges(active[a.value].item, active[k].item, run) then Archived else Suspended
  }

  function Reinforced(vitality: real, count: nat): real {
    if count == 0 then vitality else Min(100.0, vitality + 5.0 * count as real)
  }

  /** The left partners k has met when the pairs before (i, j) are done. */
  function Lefts(i: nat, j: nat, k: nat): (m: nat)
    ensures m <= k
  {
    if i < k < j then i + 1 else if i < k then i else k
  }

  /** The end of the right partners k has met when the pairs before (i, j) are done. */
  function Rights(i: nat, j: nat, k: nat, n: nat): nat {
    if k < i then n else if k == i then j else k + 1
  }

  /** What the second pass decides about a row. */
  datatype Meters = Meters(note: Note, reinforcements: nat, vitality: real, status: Status)

  function MetersOf(row: Item): Meters {
    Meters(row.note, row.reinforcements, row.vitality, row.status)
  }

  /** ... for memory k after its first m left partners and its right partners before b. */
  function Expected(aged: Item, active: seq<Entry>, k: nat, m: nat, b: nat, run: Run): Meters
    requires m <= k < b <= |active|
  {
    var target, count := LastMerge(active, k, m, run), MergeCount(active, k, b, run);
    Meters(if target.Some? then MergedInto(active[target.value].id) else aged.note,
           aged.reinforcements + count,
           Reinforced(aged.vitality, count),
           Verdict(active, k, m, b, aged.status, run))
  }

  ghost predicate Settled(aged: Item, row: Item, active: seq<Entry>, k: nat, m: nat, b: nat, run: Run)
    requires m <= k < b <= |active|
  {
    MetersOf(row) == Expected(aged, active, k, m, b, run) && SameRow(aged, row)
  }

  /** Equal up to what the second pass writes. */
  predicate SameRow(aged: Item, row: Item) {
    row == aged.(note := row.note, reinforcements := row.reinforcements, vitality := row.vitality, status := row.status,
                 reinforcedAt := row.reinforcedAt, updatedAt := row.updatedAt)
  }

  /** All pairs before (i, j), applied to one row. */
  function RowFold(row: Item, id: Id, active: seq<Entry>, i: nat, j: nat, run: Run): Item
    requires i < j <= |active|
    decreases i, j
  {
    if j > i + 1 then PairUpdate(RowFold(row, id, active, i, j - 1, run), id, active[i], active[j - 1], run)
    else if i > 0 then RowFold(row, id, active, i - 1, |active|, run)
    else row
  }

  lemma {:induction false} RowsAfterRow(p: Pass, row: Item, id: Id, active: seq<Entry>, i: nat, j: nat, run: Run)
    requires i < j <= |active| && id in p.store.items && p.store.items[id] == RowFold(row, id, active, i, i + 1, run)
    ensures var items := PairRow(p, active, i, j, run).store.items;
            items.Keys == p.store.items.Keys && items[id] == RowFold(row, id, active, i, j, run)
    decreases j
  {
    if j > i + 1 {
      RowsAfterRow(p, row, id, active, i, j - 1, run);
    }
  }

  /** Following one row through the pair loop. */
  lemma {:induction false} RowsAfter(p: Pass, id: Id, active: seq<Entry>, i: nat, run: Run)
    requires i < |active| && id in p.store.items
    ensures var items := PairRows(p, active, i + 1, run).store.items;
            items.Keys == p.store.items.Keys && items[id] == RowFold(p.store.items[id], id, active, i, |active|, run)
  {
    if i > 0 {
      RowsAfter(p, id, active, i - 1, run);
    }
    RowsAfterRow(PairRows(p, active, i, run), p.store.items[id], id, active, i, |active|, run);
  }

  lemma {:induction false} FoldElsewhere(row: Item, id: Id, active: seq<Entry>, i: nat, j: nat, run: Run)
    requires i < j <= |active| && forall k: nat :: k < |active| ==> active[k].id != id
    ensures RowFold(row, id, active, i, j, run) == row
    decreases i, j
  {
    if j > i + 1 {
      FoldElsewhere(row, id, active, i, j - 1, run);
    } else if i > 0 {
      FoldElsewhere(row, id, active, i - 1, |active|, run);
    }
  }

  lemma YieldsGrows(active: seq<Entry>, k: nat, b: nat, run: Run)
    requires k < b < |active|
    ensures Yields(active, k, b + 1, run) <==> Yields(active, k, b, run) || YieldsTo(active, k, b, run)
  {
    if YieldsTo(active, k, b, run) {
      assert k < b < b + 1;
    }
    if Yields(active, k, b, run) {
      var c: nat :| k < c < b && YieldsTo(active, k, c, run);
      assert k < c < b + 1;
    }
  }

  lemma NoYields(active: seq<Entry>, k: nat, run: Run)
    requires k < |active|
    ensures !Yields(active, k, k + 1, run)
  {}

  lemma ReinforcedGrows(vitality: real, count: nat)
    ensures Min(100.0, Reinforced(vitality, count) + 5.0) == Reinforced(vitality, count + 1)
  {}

  lemma MetAsLeft(aged: Item, row: Item, active: seq<Entry>, i: nat, j: nat, run: Run)
    requires InOrder(active) && i < j < |active| && Settled(aged, row, active, i, i, j, run)
    ensures Settled(aged, PairUpdate(row, active[i].id, active[i], active[j], run), active, i, i, j + 1, run)
  {
    ReinforcedGrows(aged.vitality, MergeCount(active, i, j, run));
    YieldsGrows(active, i, j, run);
  }

  lemma MetAsRight(aged: Item, row: Item, active: seq<Entry>, i: nat, j: nat, run: Run)
    requires InOrder(active) && i < j < |active| && Settled(aged, row, active, j, i, j + 1, run)
    ensures Settled(aged, PairUpdate(row, active[j].id, active[i], active[j], run), active, j, i + 1, j + 1, run)
  {
    NoYields(active, j, run);
  }

  lemma NotMet(row: Item, active: seq<Entry>, i: nat, j: nat, k: nat, run: Run)
    requires InOrder(active) && i < j < |active| && k < |active| && k != i && k != j
    ensures PairUpdate(row, active[k].id, active[i], active[j], run) == row
  {}

  /** One more pair of row i, for memory k. */
  lemma SettleNext(aged: Item, row: Item, active: seq<Entry>, i: nat, j: nat, k: nat, run: Run) returns (row': Item)
    requires InOrder(active) && i < j < |active| && k < |active|
    requires Settled(aged, row, active, k, Lefts(i, j, k), Rights(i, j, k, |active|), run)
    ensures row' == PairUpdate(row, active[k].id, active[i], active[j], run)
    ensures Settled(aged, row', active, k, Lefts(i, j + 1, k), Rights(i, j + 1, k, |active|), run)
  {
    row' := PairUpdate(row, active[k].id, active[i], active[j], run);
    if k == i {
      MetAsLeft(aged, row, active, i, j, run);
      return;
    }
    if k == j {
      MetAsRight(aged, row, active, i, j, run);
      return;
    }
    NotMet(row, active, i, j, k, run);
  }

  lemma RowFoldNext(aged: Item, id: Id, active: seq<Entry>, i: nat, j: nat, run: Run)
    requires i < j < |active|
    ensures RowFold(aged, id, active, i, j + 1, run)
            == PairUpdate(RowFold(aged, id, active, i, j, run), id, active[i], active[j], run)
  {}

  /** One more pair of row i, on the folded row of memory k. */
  lemma SettleStep(aged: Item, row: Item, active: seq<Entry>, i: nat, j: nat, k: nat, run: Run) returns (next: Item)
    requires InOrder(active) && i < j < |active| && k < |active|
    requires row == RowFold(aged, active[k].id, active, i, j, run)
    requires Settled(aged, row, active, k, Lefts(i, j, k), Rights(i, j, k, |active|), run)
    ensures next == RowFold(aged, active[k].id, active, i, j + 1, run)
    ensures Settled(aged, next, active, k, Lefts(i, j + 1, k), Rights(i, j + 1, k, |active|), run)
  {
    RowFoldNext(aged, active[k].id, active, i, j, run);
    next := SettleNext(aged, row, active, i, j, k, run);
  }

  /** The rest of a row of pairs, for memory k. */
  lemma {:induction false} SettleRow(aged: Item, active: seq<Entry>, i: nat, j: nat, k: nat, run: Run, row: Item)
    returns (r: Item)
    requires InOrder(active) && i < j <= |active| && k < |active|
    requires row == RowFold(aged, active[k].id, active, i, j, run)
    requires Settled(aged, row, active, k, Lefts(i, j, k), Rights(i, j, k, |active|), run)
    ensures r == RowFold(aged, active[k].id, active, i, |active|, run)
    ensures Settled(aged, r, active, k, Lefts(i, |active|, k), Rights(i, |active|, k, |active|), run)
    decreases |active| - j
  {
    if j == |active| {
      return row;
    }
    var next := SettleStep(aged, row, active, i, j, k, run);
    r := SettleRow(aged, active, i, j + 1, k, run, next);
  }

  lemma RowFoldRow(aged: Item, id: Id, active: seq<Entry>, i: nat, run: Run)
    requires 0 < i < |active|
    ensures RowFold(aged, id, active, i, i + 1, run) == RowFold(aged, id, active, i - 1, |active|, run)
  {}

  lemma NextRow(i: nat, k: nat, n: nat)
    requires 0 < i < n && k < n
    ensures Lefts(i - 1, n, k) == Lefts(i, i + 1, k) && Rights(i - 1, n, k, n) == Rights(i, i + 1, k, n)
  {}

  /** The row of memory k, when all pairs of the first i + 1 rows are done. */
  lemma {:induction false} RowsSettle(aged: Item, active: seq<Entry>, i: nat, k: nat, run: Run) returns (r: Item)
    requires InOrder(active) && i < |active| && k < |active|
    ensures r == RowFold(aged, active[k].id, active, i, |active|, run)
    ensures Settled(aged, r, active, k, Lefts(i, |active|, k), Rights(i, |active|, k, |active|), run)
  {
    if i > 0 {
      r := RowsSettle(aged, active, i - 1, k, run);
      RowFoldRow(aged, active[k].id, active, i, run);
      NextRow(i, k, |active|);
      r := SettleRow(aged, active, i, i + 1, k, run, r);
    } else {
      NoYields(active, k, run);
      r := SettleRow(aged, active, i, i + 1, k, run, aged);
    }
  }

  // ---------------------------------------------------------------- the run as a whole

  ghost predicate Listed(s: Store, run: Run, limit: int, ids: seq<Id>) {
    IsListing(s, run.actor.org, limit, ids)
  }

  function ActiveOf(s: Store, ids: seq<Id>, run: Run): seq<Entry>
    requires forall i: nat :: i < |ids| ==> ids[i] in s.items
  {
    Online(Scanned(s, ids, run.actor))
  }

  /** The row a memory has after the run. */
  function RowAfter(s: Store, ids: seq<Id>, run: Run, texts: Texts, id: Id): Option<Item>
    requires forall i: nat :: i < |ids| ==> ids[i] in s.items
  {
    var items := Maintain(s, ids, run, texts).store.items;
    if id in items then Some(items[id]) else None
  }

  /** Every row is aged if it was scanned, and then follows the pair loop. */
  lemma {:induction false} RowsFold(s: Store, ids: seq<Id>, limit: int, run: Run, texts: Texts, id: Id)
    requires Listed(s, run, limit, ids) && id in s.items
    ensures var active := ActiveOf(s, ids, run);
            var aged := if InScan(s, ids, run, id) then AgedRow(s.items[id], s.items[id], run) else s.items[id];
            RowAfter(s, ids, run, texts, id) ==
            Some(if active == [] then aged else RowFold(aged, id, active, |active| - 1, |active|, run))
  {
    var entries, active := Scanned(s, ids, run.actor), ActiveOf(s, ids, run);
    ScannedInOrder(s, run.actor.org, limit, ids, run.actor);
    var p := Pass(Hydrate(s, VisibleIds(s, ids, run.actor), texts), NewReport(|entries|));
    if InScan(s, ids, run, id) {
      var i: nat :| i < |entries| && entries[i].id == id;
      AgedHere(p, entries, run, i);
    } else {
      AgedElsewhere(p, entries, run, id);
    }
    if active != [] {
      RowsAfter(Aged(s, ids, run, texts), id, active, |active| - 1, run);
    }
  }

  lemma ActiveIsScanned(s: Store, ids: seq<Id>, limit: int, run: Run, k: nat)
    requires Listed(s, run, limit, ids) && k < |ActiveOf(s, ids, run)|
    ensures var e := ActiveOf(s, ids, run)[k];
            && e.id in s.items && e.item == s.items[e.id] && IsOnline(e.item.status) && InScan(s, ids, run, e.id)
    ensures InOrder(ActiveOf(s, ids, run))
  {
    var entries := Scanned(s, ids, run.actor);
    ScannedInOrder(s, run.actor.org, limit, ids, run.actor);
    OnlineFrom(entries, k);
    var i: nat :| i < |entries| && entries[i] == ActiveOf(s, ids, run)[k];
  }

  /** The order in which the loops look at pairs leaves no trace but the last word: every online memory
      ends with the row the snapshot determines. */
  lemma {:induction false} OnlineRowsSettle(s: Store, ids: seq<Id>, limit: int, run: Run, texts: Texts, k: nat)
    returns (row: Item)
    requires Listed(s, run, limit, ids) && k < |ActiveOf(s, ids, run)|
    ensures var active := ActiveOf(s, ids, run);
            var e := active[k];
            && e.id in s.items && e.item == s.items[e.id] && IsOnline(e.item.status)
            && RowAfter(s, ids, run, texts, e.id) == Some(row)
            && Settled(AgedRow(e.item, e.item, run), row, active, k, k, |active|, run)
  {
    var active := ActiveOf(s, ids, run);
    var e, n := active[k], |active|;
    var aged := AgedRow(e.item, e.item, run);
    ActiveIsScanned(s, ids, limit, run, k);
    assert InOrder(active);
    row := RowsSettle(aged, active, n - 1, k, run);
    OnlineRowsFold(s, ids, limit, run, texts, active, k, aged, n, row);
    LastRow(k, n);
  }

  lemma OnlineRowsFold(s: Store, ids: seq<Id>, limit: int, run: Run, texts: Texts, active: seq<Entry>, k: nat,
                       aged: Item, n: nat, row: Item)
    requires Listed(s, run, limit, ids) && active == ActiveOf(s, ids, run) && k < n == |active|
    requires aged == AgedRow(active[k].item, active[k].item, run)
             && row == RowFold(aged, active[k].id, active, n - 1, n, run)
    ensures RowAfter(s, ids, run, texts, active[k].id) == Some(row)
  {
    ActiveIsScanned(s, ids, limit, run, k);
    RowsFold(s, ids, limit, run, texts, active[k].id);
  }

  lemma LastRow(k: nat, n: nat)
    requires k < n
    ensures Lefts(n - 1, n, k) == k && Rights(n - 1, n, k, n) == n
  {}

  ghost predicate InScan(s: Store, ids: seq<Id>, run: Run, id: Id)
    requires forall i: nat :: i < |ids| ==> ids[i] in s.items
  {
    exists i: nat :: i < |Scanned(s, ids, run.actor)| && Scanned(s, ids, run.actor)[i].id == id
  }

  /** A row that is scanned but not online is only aged. */
  lemma {:induction false} OfflineRowsAge(s: Store, ids: seq<Id>, limit: int, run: Run, texts: Texts, id: Id)
    requires Listed(s, run, limit, ids) && InScan(s, ids, run, id) && id in s.items && !IsOnline(s.items[id].status)
    ensures RowAfter(s, ids, run, texts, id) == Some(AgedRow(s.items[id], s.items[id], run))
  {
    var active := ActiveOf(s, ids, run);
    RowsFold(s, ids, limit, run, texts, id);
    forall k: nat | k < |active| ensures active[k].id != id {
      ActiveIsScanned(s, ids, limit, run, k);
    }
    if active != [] {
      FoldElsewhere(AgedRow(s.items[id], s.items[id], run), id, active, |active| - 1, |active|, run);
    }
  }

  /** Rows outside the snapshot are untouched. */
  lemma {:induction false} OtherRowsStay(s: Store, ids: seq<Id>, limit: int, run: Run, texts: Texts, id: Id)
    requires Listed(s, run, limit, ids) && id in s.items && !InScan(s, ids, run, id)
    ensures RowAfter(s, ids, run, texts, id) == Some(s.items[id])
  {
    var active := ActiveOf(s, ids, run);
    RowsFold(s, ids, limit, run, texts, id);
    forall k: nat | k < |active| ensures active[k].id != id {
      ActiveIsScanned(s, ids, limit, run, k);
    }
    if active != [] {
      FoldElsewhere(s.items[id], id, active, |active| - 1, |active|, run);
    }
  }

  /** A scanned online row is an online memory of the snapshot. */
  lemma {:induction false} OnlineIsActive(s: Store, ids: seq<Id>, limit: int, run: Run, id: Id) returns (k: nat)
    requires Listed(s, run, limit, ids) && InScan(s, ids, run, id)
    requires id in s.items && IsOnline(s.items[id].status)
    ensures k < |ActiveOf(s, ids, run)| && ActiveOf(s, ids, run)[k] == Entry(id, s.items[id])
  {
    var entries := Scanned(s, ids, run.actor);
    ScannedInOrder(s, run.actor.org, limit, ids, run.actor);
    var i: nat :| i < |entries| && entries[i].id == id;
    assert entries[i] == Entry(id, s.items[id]);
    k := OnlineHolds(entries, i);
  }

  // ---------------------------------------------------------------- merge pointers

  /** The memory k is left pointing at another one by the run, at position a. */
  ghost predicate PointsTo(s: Store, ids: seq<Id>, run: Run, texts: Texts, k: nat, a: nat)
    requires forall i: nat :: i < |ids| ==> ids[i] in s.items
  {
    var active := ActiveOf(s, ids, run);
    && a < k < |active|
    && RowAfter(s, ids, run, texts, active[k].id).Some?
    && RowAfter(s, ids, run, texts, active[k].id).value.note == MergedInto(active[a].id)
    && Ranks(active[a].item, active[k].item)
  }

  ghost predicate NeverMerged(active: seq<Entry>, k: nat, run: Run)
    requires k < |active|
  {
    forall a: nat :: a < k ==> !Merges(active[a].item, active[k].item, run)
  }

  lemma AgingKeepsNote(item: Item, run: Run)
    ensures AgedRow(item, item, run).note == item.note
  {}

  /** The memory that k is merged into last, or none; the note of a memory that is not merged stays. */
  lemma {:induction false} OnePointer(s: Store, ids: seq<Id>, limit: int, run: Run, texts: Texts, k: nat)
    returns (target: Option<nat>, row: Item)
    requires Listed(s, run, limit, ids) && k < |ActiveOf(s, ids, run)|
    ensures RowAfter(s, ids, run, texts, ActiveOf(s, ids, run)[k].id) == Some(row)
    ensures target.None? <==> NeverMerged(ActiveOf(s, ids, run), k, run)
    ensures target.Some? ==> PointsTo(s, ids, run, texts, k, target.value)
    ensures target.None? ==> row.note == ActiveOf(s, ids, run)[k].item.note
  {
    row := OnlineRowsSettle(s, ids, limit, run, texts, k);
    ScannedInOrder(s, run.actor.org, limit, ids, run.actor);
    target := LastMerge(ActiveOf(s, ids, run), k, k, run);
    AgingKeepsNote(ActiveOf(s, ids, run)[k].item, run);
  }

  ghost predicate IsPointerChain(s: Store, ids: seq<Id>, run: Run, texts: Texts, chain: seq<nat>)
    requires forall i: nat :: i < |ids| ==> ids[i] in s.items
  {
    forall i: nat :: i + 1 < |chain| ==> PointsTo(s, ids, run, texts, chain[i], chain[i + 1])
  }

  lemma ChainGrows(s: Store, ids: seq<Id>, run: Run, texts: Texts, k: nat, rest: seq<nat>)
    requires forall i: nat :: i < |ids| ==> ids[i] in s.items
    requires rest != [] && IsPointerChain(s, ids, run, texts, rest) && PointsTo(s, ids, run, texts, k, rest[0])
    ensures IsPointerChain(s, ids, run, texts, [k] + rest)
  {
    forall i: nat | i + 1 < |[k] + rest| ensures PointsTo(s, ids, run, texts, ([k] + rest)[i], ([k] + rest)[i + 1]) {
      if i > 0 {
        assert ([k] + rest)[i] == rest[i - 1] && ([k] + rest)[i + 1] == rest[i - 1 + 1];
      }
    }
  }

  /** Every merge pointer goes to a strictly earlier memory of the snapshot, which ranks at least as high; so the
      pointers form no cycle, and following them from any memory ends in one that was never merged. */
  lemma {:induction false} PointersEnd(s: Store, ids: seq<Id>, limit: int, run: Run, texts: Texts, k: nat)
    returns (chain: seq<nat>)
    requires Listed(s, run, limit, ids) && k < |ActiveOf(s, ids, run)|
    ensures chain != [] && chain[0] == k && IsPointerChain(s, ids, run, texts, chain)
    ensures chain[|chain| - 1] <= k && NeverMerged(ActiveOf(s, ids, run), chain[|chain| - 1], run)
    ensures |chain| == 1 <==> NeverMerged(ActiveOf(s, ids, run), k, run)
    decreases k
  {
    chain := [k];
    var target, row := OnePointer(s, ids, limit, run, texts, k);
    if target.Some? {
      var rest := PointersEnd(s, ids, limit, run, texts, target.value);
      ChainGrows(s, ids, run, texts, k, rest);
      chain := chain + rest;
    }
  }

  // ---------------------------------------------------------------- who is protected, who goes offline

  /** Another online memory of the snapshot takes k offline. */
  ghost predicate Felled(active: seq<Entry>, k: nat, run: Run)
    requires k < |active|
  {
    || (exists a: nat :: a < k && (Merges(active[a].item, active[k].item, run) || LosesTo(active, a, k, run)))
    || Yields(active, k, |active|, run)
  }

  lemma VerdictFells(active: seq<Entry>, k: nat, aged: Status, run: Run)
    requires k < |active|
    ensures Felled(active, k, run) ==> Verdict(active, k, k, |active|, aged, run) in {Archived, Suspended}
    ensures !Felled(active, k, run) ==> Verdict(active, k, k, |active|, aged, run) == aged
    ensures Protected(active[k].item) ==> !Felled(active, k, run)
  {}

  /** A pinned memory keeps its status, and its vitality is not lowered. */
  lemma {:induction false} PinnedIsKept(s: Store, ids: seq<Id>, limit: int, run: Run, texts: Texts, id: Id)
    returns (row: Item)
    requires Listed(s, run, limit, ids) && id in s.items && s.items[id].pinned && s.items[id].vitality <= 100.0
    ensures RowAfter(s, ids, run, texts, id) == Some(row)
    ensures row.status == s.items[id].status && row.vitality >= s.items[id].vitality && row.pinned
  {
    if !InScan(s, ids, run, id) {
      OtherRowsStay(s, ids, limit, run, texts, id);
      row := s.items[id];
    } else if !IsOnline(s.items[id].status) {
      OfflineRowsAge(s, ids, limit, run, texts, id);
      row := AgedRow(s.items[id], s.items[id], run);
    } else {
      var k := OnlineIsActive(s, ids, limit, run, id);
      row := OnlineRowsSettle(s, ids, limit, run, texts, k);
      VerdictFells(ActiveOf(s, ids, run), k, s.items[id].status, run);
    }
  }

  /** A verified memory goes offline exactly if it is scanned and expired, and is archived then. */
  lemma {:induction false} VerifiedLeavesByExpiry(s: Store, ids: seq<Id>, limit: int, run: Run, texts: Texts, id: Id)
    returns (row: Item)
    requires Listed(s, run, limit, ids) && id in s.items && s.items[id].status == Verified
    ensures RowAfter(s, ids, run, texts, id) == Some(row)
    ensures row.status == if InScan(s, ids, run, id) && Expires(s.items[id], run.now) then Archived else Verified
  {
    if !InScan(s, ids, run, id) {
      OtherRowsStay(s, ids, limit, run, texts, id);
      row := s.items[id];
    } else {
      var k := OnlineIsActive(s, ids, limit, run, id);
      row := OnlineRowsSettle(s, ids, limit, run, texts, k);
      VerdictFells(ActiveOf(s, ids, run), k, AgedRow(s.items[id], s.items[id], run).status, run);
    }
  }

  /** A scanned online memory stays online exactly if neither its age nor another online memory of the
      snapshot takes it offline; it keeps its status then. */
  lemma {:induction false} StaysOnlineIff(s: Store, ids: seq<Id>, limit: int, run: Run, texts: Texts, k: nat)
    returns (row: Item)
    requires Listed(s, run, limit, ids) && k < |ActiveOf(s, ids, run)|
    ensures var active := ActiveOf(s, ids, run);
            var item := active[k].item;
            && RowAfter(s, ids, run, texts, active[k].id) == Some(row)
            && (IsOnline(row.status) <==> !Expires(item, run.now) && !Fades(item, run) && !Felled(active, k, run))
            && (IsOnline(row.status) ==> row.status == item.status)
  {
    row := OnlineRowsSettle(s, ids, limit, run, texts, k);
    var active := ActiveOf(s, ids, run);
    VerdictFells(active, k, AgedRow(active[k].item, active[k].item, run).status, run);
  }

  /** What maintenance may change of a row. Forgotten rows stay, no row becomes one, nothing comes online, and
      scores stay in range. */
  predicate OnlyMetered(row: Item, next: Item) {
    && SameRow(row, next)
    && (row.status == Forgotten ==> next == row)
    && (row.status != Forgotten ==> next.status != Forgotten)
    && (0.0 <= row.vitality <= 100.0 ==> 0.0 <= next.vitality <= 100.0)
    && (IsOnline(next.status) ==> next.status == row.status)
  }

  lemma AgingOnlyMeters(item: Item, run: Run)
    ensures OnlyMetered(item, AgedRow(item, item, run))
  {}

  lemma SettlingOnlyMeters(item: Item, row: Item, active: seq<Entry>, k: nat, run: Run)
    requires k < |active| && IsOnline(item.status)
    requires Settled(AgedRow(item, item, run), row, active, k, k, |active|, run)
    ensures OnlyMetered(item, row)
  {
    AgingOnlyMeters(item, run);
  }

  /** Every row of the database, scanned or not. */
  lemma {:induction false} RowsAreOnlyMetered(s: Store, ids: seq<Id>, limit: int, run: Run, texts: Texts, id: Id)
    returns (row: Item)
    requires Listed(s, run, limit, ids) && id in s.items
    ensures RowAfter(s, ids, run, texts, id) == Some(row) && OnlyMetered(s.items[id], row)
  {
    if !InScan(s, ids, run, id) {
      OtherRowsStay(s, ids, limit, run, texts, id);
      row := s.items[id];
    } else if !IsOnline(s.items[id].status) {
      OfflineRowsAge(s, ids, limit, run, texts, id);
      row := AgedRow(s.items[id], s.items[id], run);
      AgingOnlyMeters(s.items[id], run);
    } else {
      var k := OnlineIsActive(s, ids, limit, run, id);
      row := OnlineRowsSettle(s, ids, limit, run, texts, k);
      SettlingOnlyMeters(s.items[id], row, ActiveOf(s, ids, run), k, run);
    }
  }

  lemma {:induction false} PairRowKeys(p: Pass, active: seq<Entry>, i: nat, j: nat, run: Run)
    requires i < j <= |active|
    ensures var t := PairRow(p, active, i, j, run).store;
            t.items.Keys == p.store.items.Keys && t.chunks == p.store.chunks && t.scores == p.store.scores
    decreases j
  {
    if j > i + 1 {
      PairRowKeys(p, active, i, j - 1, run);
    }
  }

  lemma {:induction false} PairRowsKeys(p: Pass, active: seq<Entry>, i: nat, run: Run)
    requires i <= |active|
    ensures var t := PairRows(p, active, i, run).store;
            t.items.Keys == p.store.items.Keys && t.chunks == p.store.chunks && t.scores == p.store.scores
  {
    if i > 0 {
      PairRowsKeys(p, active, i - 1, run);
      PairRowKeys(PairRows(p, active, i - 1, run), active, i - 1, |active|, run);
    }
  }

  /** No row comes or goes, and chunks are only built. */
  lemma {:induction false} TablesKeepRows(s: Store, ids: seq<Id>, run: Run, texts: Texts)
    requires forall i: nat :: i < |ids| ==> ids[i] in s.items
    ensures var t := Maintain(s, ids, run, texts).store;
            var hydrated := Hydrate(s, VisibleIds(s, ids, run.actor), texts);
            t.items.Keys == s.items.Keys && t.chunks == hydrated.chunks && t.scores == hydrated.scores
  {
    var active := ActiveOf(s, ids, run);
    PairRowsKeys(Aged(s, ids, run, texts), active, |active|, run);
  }

  // ---------------------------------------------------------------- the report

  function Tally(actions: seq<Action>, name: ActionName): nat
    decreases |actions|
  {
    if actions == [] then 0
    else Tally(actions[..|actions| - 1], name) + (if actions[|actions| - 1].name == name then 1 else 0)
  }

  lemma TallyGrows(actions: seq<Action>, a: Action, name: ActionName)
    ensures Tally(actions + [a], name) == Tally(actions, name) + (if a.name == name then 1 else 0)
  {
    assert (actions + [a])[..|actions|] == actions;
  }

  /** The report counts the action rows appended since start. */
  ghost predicate Accounted(start: seq<Action>, p: Pass) {
    && start <= p.store.actions
    && p.report.reinforced == p.report.merged
    && Tally(p.store.actions, Merged) == Tally(start, Merged) + p.report.merged
    && Tally(p.store.actions, AutoArchived) == Tally(start, AutoArchived) + p.report.archived
    && Tally(p.store.actions, Expired) == Tally(start, Expired) + p.report.expired
    && |p.store.actions| >= |start| + p.report.merged + p.report.archived + p.report.expired
    && |p.store.actions| <= |start| + p.report.merged + p.report.archived + p.report.expired + p.report.conflicts
  }

  lemma AgeStepAccounted(start: seq<Action>, p: Pass, e: Entry, run: Run)
    requires e.id in p.store.items && Accounted(start, p)
    ensures Accounted(start, AgeStep(p, e, run))
  {
    var q := AgeStep(p, e, run);
    if q.store.actions != p.store.actions {
      AgedAccounted(start, p, q, q.store.actions[|p.store.actions|]);
    }
  }

  /** One more action row, counted as archived or expired. */
  lemma AgedAccounted(start: seq<Action>, p: Pass, q: Pass, a: Action)
    requires Accounted(start, p) && q.store.actions == p.store.actions + [a] && a.name in {AutoArchived, Expired}
    requires q.report.merged == p.report.merged && q.report.reinforced == p.report.reinforced
    requires q.report.conflicts == p.report.conflicts
    requires q.report.archived == p.report.archived + (if a.name == AutoArchived then 1 else 0)
    requires q.report.expired == p.report.expired + (if a.name == Expired then 1 else 0)
    ensures Accounted(start, q)
  {
    TallyGrows(p.store.actions, a, Merged);
    TallyGrows(p.store.actions, a, AutoArchived);
    TallyGrows(p.store.actions, a, Expired);
  }

  lemma PairStepAccounted(start: seq<Action>, p: Pass, l: Entry, r: Entry, run: Run)
    requires Accounted(start, p)
    ensures Accounted(start, PairStep(p, l, r, run))
  {
    var q := PairStep(p, l, r, run);
    if q.store.actions != p.store.actions {
      var a := q.store.actions[|p.store.actions|];
      TallyGrows(p.store.actions, a, Merged);
      TallyGrows(p.store.actions, a, AutoArchived);
      TallyGrows(p.store.actions, a, Expired);
    }
  }

  lemma {:induction false} AgeAllAccounted(start: seq<Action>, p: Pass, entries: seq<Entry>, run: Run)
    requires forall i: nat :: i < |entries| ==> entries[i].id in p.store.items
    requires Accounted(start, p)
    ensures Accounted(start, AgeAll(p, entries, run))
    decreases |entries|
  {
    if entries != [] {
      var n := |entries| - 1;
      AgeAllAccounted(start, p, entries[..n], run);
      AgeStepAccounted(start, AgeAll(p, entries[..n], run), entries[n], run);
    }
  }

  /** What every comparison keeps, a row of comparisons keeps. */
  lemma {:induction false} PairRowKeeps(inv: Pass -> bool, p: Pass, active: seq<Entry>, i: nat, j: nat, run: Run)
    requires i < j <= |active| && inv(p)
    requires forall q, l, r :: inv(q) ==> inv(PairStep(q, l, r, run))
    ensures inv(PairRow(p, active, i, j, run))
    decreases j
  {
    if j > i + 1 {
      PairRowKeeps(inv, p, active, i, j - 1, run);
    }
  }

  /** ... and so do all of them. */
  lemma {:induction false} PairRowsKeep(inv: Pass -> bool, p: Pass, active: seq<Entry>, i: nat, run: Run)
    requires i <= |active| && inv(p)
    requires forall q, l, r :: inv(q) ==> inv(PairStep(q, l, r, run))
    ensures inv(PairRows(p, active, i, run))
  {
    if i > 0 {
      PairRowsKeep(inv, p, active, i - 1, run);
      PairRowKeeps(inv, PairRows(p, active, i - 1, run), active, i - 1, |active|, run);
    }
  }

  /** merged equals reinforced; merged, archived and expired are the numbers of action rows of that kind
      the run appended; conflicts may exceed its action rows, because a protected loser is only counted. */
  lemma {:induction false} ReportCountsActions(s: Store, ids: seq<Id>, limit: int, run: Run, texts: Texts)
    requires Listed(s, run, limit, ids)
    ensures Accounted(s.actions, Maintain(s, ids, run, texts))
  {
    var entries, active := Scanned(s, ids, run.actor), ActiveOf(s, ids, run);
    var start := Pass(Hydrate(s, VisibleIds(s, ids, run.actor), texts), NewReport(|entries|));
    AgeAllAccounted(s.actions, start, entries, run);
    forall q, l, r | Accounted(s.actions, q) ensures Accounted(s.actions, PairStep(q, l, r, run)) {
      PairStepAccounted(s.actions, q, l, r, run);
    }
    PairRowsKeep((q: Pass) => Accounted(s.actions, q), Aged(s, ids, run, texts), active, |active|, run);
  }
}
