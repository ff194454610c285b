/**
  The relation rows of maintenance: one for every pair of memories in the snapshot that conflict, and the report
  counts those pairs.
 */
module MemoryMaintenanceConflicts {

  import opened MemoryModel
  import opened MemoryLinks
  import opened MemoryMaintenance
  import opened MemoryMaintenanceTheorem

  ghost predicate Conflicting(active: seq<Entry>, a: nat, b: nat, run: Run) {
    a < b < |active| && Conflicts(active[a].item, active[b].item, run)
  }

  function KeyOf(active: seq<Entry>, a: nat, b: nat): LinkKey
    requires a < |active| && b < |active|
  {
    (active[a].id, active[b].id, ConflictLink)
  }

  /** The conflicting pairs before (i, j). */
  ghost function ConflictKeys(active: seq<Entry>, i: nat, j: nat, run: Run): set<LinkKey> {
    set a: nat, b: nat | a <= i && b < |active| && (a < i || b < j) && Conflicting(active, a, b, run) ::
        KeyOf(active, a, b)
  }

  lemma KeyOfOnce(active: seq<Entry>, a: nat, b: nat, i: nat, j: nat)
    requires InOrder(active) && a < |active| && b < |active| && i < |active| && j < |active|
    requires KeyOf(active, a, b) == KeyOf(active, i, j)
    ensures a == i && b == j
  {}

  lemma KeysAreNew(active: seq<Entry>, i: nat, j: nat, run: Run)
    requires InOrder(active) && i < j < |active|
    ensures KeyOf(active, i, j) !in ConflictKeys(active, i, j, run)
  {
    forall a: nat, b: nat | a <= i && b < |active| && (a < i || b < j)
      ensures KeyOf(active, a, b) != KeyOf(active, i, j)
    {
      assert a != i ==> active[a].id != active[i].id;
      assert b != j ==> active[b].id != active[j].id;
    }
  }

  lemma KeysNext(active: seq<Entry>, i: nat, j: nat, run: Run)
    requires i < j < |active|
    ensures ConflictKeys(active, i, j + 1, run) ==
            ConflictKeys(active, i, j, run) + (if Conflicting(active, i, j, run) then {KeyOf(active, i, j)} else {})
  {
    var before, after := ConflictKeys(active, i, j, run), ConflictKeys(active, i, j + 1, run);
    forall key | key in after
      ensures key in before || (Conflicting(active, i, j, run) && key == KeyOf(active, i, j))
    {
      var a: nat, b: nat :| a <= i && b < |active| && (a < i || b < j + 1) && Conflicting(active, a, b, run)
                            && key == KeyOf(active, a, b);
    }
  }

  lemma KeysNextRow(active: seq<Entry>, i: nat, run: Run)
    ensures ConflictKeys(active, i, |active|, run) == ConflictKeys(active, i + 1, i + 2, run)
  {
    var before, after := ConflictKeys(active, i, |active|, run), ConflictKeys(active, i + 1, i + 2, run);
    forall key | key in after ensures key in before {
      var a: nat, b: nat :| a <= i + 1 && b < |active| && (a < i + 1 || b < i + 2) && Conflicting(active, a, b, run)
                            && key == KeyOf(active, a, b);
    }
    forall key | key in before ensures key in after {
      var a: nat, b: nat :| a <= i && b < |active| && (a < i || b < |active|) && Conflicting(active, a, b, run)
                            && key == KeyOf(active, a, b);
    }
  }

  // ---------------------------------------------------------------- the count

  /** The report counts the conflicting pairs before (i, j). */
  ghost predicate Counts(p: Pass, active: seq<Entry>, i: nat, j: nat, run: Run) {
    p.report.conflicts == |ConflictKeys(active, i, j, run)|
  }

  lemma KeysGrow(active: seq<Entry>, i: nat, j: nat, run: Run)
    requires InOrder(active) && i < j < |active|
    ensures |ConflictKeys(active, i, j + 1, run)| ==
            |ConflictKeys(active, i, j, run)| + (if Conflicts(active[i].item, active[j].item, run) then 1 else 0)
  {
    KeysNext(active, i, j, run);
    KeysAreNew(active, i, j, run);
  }

  lemma PairCounts(p: Pass, q: Pass, active: seq<Entry>, i: nat, j: nat, run: Run)
    requires InOrder(active) && i < j < |active| && Counts(p, active, i, j, run)
    requires q == PairStep(p, active[i], active[j], run)
    ensures Counts(q, active, i, j + 1, run)
  {
    KeysGrow(active, i, j, run);
  }

  lemma {:induction false} RowCounts(p: Pass, active: seq<Entry>, i: nat, j: nat, run: Run) returns (q: Pass)
    requires InOrder(active) && i < j <= |active| && Counts(p, active, i, i + 1, run)
    ensures q == PairRow(p, active, i, j, run) && Counts(q, active, i, j, run)
    decreases j
  {
    q := p;
    if j > i + 1 {
      var m := j - 1;
      var q1 := RowCounts(p, active, i, m, run);
      q := PairStep(q1, active[i], active[m], run);
      PairCounts(q1, q, active, i, m, run);
    }
  }

  lemma NoCounts(p: Pass, active: seq<Entry>, run: Run)
    requires p.report.conflicts == 0
    ensures Counts(p, active, 0, 1, run)
  {
    assert ConflictKeys(active, 0, 1, run) == {};
  }

  lemma FullRowCounts(p: Pass, active: seq<Entry>, i: nat, run: Run) returns (q: Pass)
    requires InOrder(active) && i < |active| && Counts(p, active, i, i + 1, run)
    ensures q == PairRow(p, active, i, |active|, run) && Counts(q, active, i + 1, i + 2, run)
  {
    q := RowCounts(p, active, i, |active|, run);
    KeysNextRow(active, i, run);
  }

  lemma {:induction false} AllCounts(p: Pass, active: seq<Entry>, i: nat, run: Run) returns (q: Pass)
    requires InOrder(active) && i <= |active| && p.report.conflicts == 0
    ensures q == PairRows(p, active, i, run) && Counts(q, active, i, i + 1, run)
  {
    if i == 0 {
      q := p;
      NoCounts(p, active, run);
    } else {
      var k := i - 1;
      var q1 := AllCounts(p, active, k, run);
      q := FullRowCounts(q1, active, k, run);
    }
  }

  lemma {:induction false} AgingFindsNoConflict(p: Pass, entries: seq<Entry>, run: Run)
    requires forall i: nat :: i < |entries| ==> entries[i].id in p.store.items
    ensures AgeAll(p, entries, run).report.conflicts == p.report.conflicts
    decreases |entries|
  {
    if entries != [] {
      AgingFindsNoConflict(p, entries[..|entries| - 1], run);
    }
  }

  /** The report counts the conflicting pairs of the snapshot. */
  lemma {:induction false} ReportCountsConflicts(s: Store, ids: seq<Id>, limit: int, run: Run, texts: Texts)
    returns (keys: set<LinkKey>)
    requires Listed(s, run, limit, ids)
    ensures var active := ActiveOf(s, ids, run);
            forall key :: key in keys <==>
              exists a: nat, b: nat :: Conflicting(active, a, b, run) && key == KeyOf(active, a, b)
    ensures Maintain(s, ids, run, texts).report.conflicts == |keys|
  {
    var active, entries := ActiveOf(s, ids, run), Scanned(s, ids, run.actor);
    ScannedInOrder(s, run.actor.org, limit, ids, run.actor);
    AgingFindsNoConflict(Pass(Hydrate(s, VisibleIds(s, ids, run.actor), texts), NewReport(|entries|)), entries, run);
    var q := AllCounts(Aged(s, ids, run, texts), active, |active|, run);
    keys := ConflictKeys(active, |active|, |active| + 1, run);
  }

  // ---------------------------------------------------------------- the rows

  /** No pair of the snapshot has this key. */
  ghost predicate IsNoPair(active: seq<Entry>, key: LinkKey) {
    forall a: nat, b: nat :: a < b < |active| ==> key != KeyOf(active, a, b)
  }

  lemma {:induction false} RowOfPair(rows: Relations, active: seq<Entry>, i: nat, j: nat, run: Run, a: nat, b: nat)
    requires InOrder(active) && i < j <= |active| && a < b < |active|
    ensures var key := KeyOf(active, a, b);
            RelationAt(RowConflicts(rows, active, i, j, run), key) ==
            RelationAt(if a == i && b < j then PairConflict(rows, active[a], active[b], run) else rows, key)
    decreases j
  {
    if j > i + 1 {
      RowOfPair(rows, active, i, j - 1, run, a, b);
      if KeyOf(active, a, b) == KeyOf(active, i, j - 1) {
        KeyOfOnce(active, a, b, i, j - 1);
      }
    }
  }

  lemma {:induction false} RowsOfPair(rows: Relations, active: seq<Entry>, i: nat, run: Run, a: nat, b: nat)
    requires InOrder(active) && i <= |active| && a < b < |active|
    ensures var key := KeyOf(active, a, b);
            RelationAt(AllConflicts(rows, active, i, run), key) ==
            RelationAt(if a < i then PairConflict(rows, active[a], active[b], run) else rows, key)
  {
    if i > 0 {
      RowsOfPair(rows, active, i - 1, run, a, b);
      RowOfPair(AllConflicts(rows, active, i - 1, run), active, i - 1, |active|, run, a, b);
    }
  }

  lemma {:induction false} RowOfOthers(rows: Relations, active: seq<Entry>, i: nat, j: nat, run: Run, key: LinkKey)
    requires i < j <= |active| && IsNoPair(active, key)
    ensures RelationAt(RowConflicts(rows, active, i, j, run), key) == RelationAt(rows, key)
    decreases j
  {
    if j > i + 1 {
      RowOfOthers(rows, active, i, j - 1, run, key);
      assert key != KeyOf(active, i, j - 1);
    }
  }

  lemma {:induction false} RowsOfOthers(rows: Relations, active: seq<Entry>, i: nat, run: Run, key: LinkKey)
    requires i <= |active| && IsNoPair(active, key)
    ensures RelationAt(AllConflicts(rows, active, i, run), key) == RelationAt(rows, key)
  {
    if i > 0 {
      RowsOfOthers(rows, active, i - 1, run, key);
      RowOfOthers(AllConflicts(rows, active, i - 1, run), active, i - 1, |active|, run, key);
    }
  }

  /** After a run every pair of the snapshot has the row it had, or else the row of its conflict, if it conflicts;
      no other row comes, goes or changes. */
  lemma {:induction false} ConflictsAreRecorded(s: Store, ids: seq<Id>, limit: int, run: Run, before: Relations)
    requires Listed(s, run, limit, ids)
    ensures var active := ActiveOf(s, ids, run);
            var after := AllConflicts(before, active, |active|, run);
            && (forall a: nat, b: nat :: a < b < |active| ==>
                  RelationAt(after, KeyOf(active, a, b)) ==
                  if KeyOf(active, a, b) in before then Some(before[KeyOf(active, a, b)])
                  else if Conflicts(active[a].item, active[b].item, run)
                      then Some(ConflictRow(active[a], active[b], run))
                  else None)
            && (forall key :: IsNoPair(active, key) ==> RelationAt(after, key) == RelationAt(before, key))
  {
    var active := ActiveOf(s, ids, run);
    var after := AllConflicts(before, active, |active|, run);
    ScannedInOrder(s, run.actor.org, limit, ids, run.actor);
    forall a: nat, b: nat | a < b < |active|
      ensures RelationAt(after, KeyOf(active, a, b)) ==
              RelationAt(PairConflict(before, active[a], active[b], run), KeyOf(active, a, b))
    {
      RowsOfPair(before, active, |active|, run, a, b);
    }
    forall key | IsNoPair(active, key) ensures RelationAt(after, key) == RelationAt(before, key) {
      RowsOfOthers(before, active, |active|, run, key);
    }
  }
}
