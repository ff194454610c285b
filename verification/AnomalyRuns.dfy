/**
  Whole runs of an anomaly rule, starting with no active alerts. Evaluation times are positive and
  never go back; an evaluation that fails changes nothing, so runs of successful ones are enough.
 */
module AnomalyRuns {
  import opened AnomalyModel

  datatype Evaluation = Evaluation(ts: Time, samples: seq<Sample>)

  /** An evaluation as attempted: None when the query failed. */
  datatype Attempt = Attempt(ts: Time, failedQuery: bool, samples: seq<Sample>)

  predicate Succeeds(a: Attempt) {
    !a.failedQuery && Distinct(a.samples)
  }

  /** The active map after a run. */
  function Run(cfg: Config, evals: seq<Evaluation>): Active
    decreases |evals|
  {
    if evals == [] then map[]
    else
      var last := evals[|evals| - 1];
      EvalActive(cfg, Run(cfg, evals[..|evals| - 1]), last.samples, last.ts)
  }

  /** The active map after a run of attempts, some of which fail. */
  function RunAttempts(cfg: Config, attempts: seq<Attempt>): Active
    decreases |attempts|
  {
    if attempts == [] then map[]
    else
      var last := attempts[|attempts| - 1];
      var before := RunAttempts(cfg, attempts[..|attempts| - 1]);
      if Succeeds(last) then EvalActive(cfg, before, last.samples, last.ts) else before
  }

  function Successes(attempts: seq<Attempt>): seq<Evaluation>
    decreases |attempts|
  {
    if attempts == [] then []
    else
      var last := attempts[|attempts| - 1];
      Successes(attempts[..|attempts| - 1]) + (if Succeeds(last) then [Evaluation(last.ts, last.samples)] else [])
  }

  /** Failing evaluations can be left out of a run. */
  lemma {:induction false} FailuresDoNotMatter(cfg: Config, attempts: seq<Attempt>)
    ensures RunAttempts(cfg, attempts) == Run(cfg, Successes(attempts))
    decreases |attempts|
  {
    if attempts != [] {
      var front, last := attempts[..|attempts| - 1], attempts[|attempts| - 1];
      FailuresDoNotMatter(cfg, front);
      var evals := Successes(attempts);
      if Succeeds(last) {
        assert evals[..|evals| - 1] == Successes(front);
      } else {
        assert evals == Successes(front);
      }
    }
  }

  predicate ValidRun(evals: seq<Evaluation>) {
    && (forall i :: 0 <= i < |evals| ==> evals[i].ts > ZERO_TIME && Distinct(evals[i].samples))
    && (forall i, j :: 0 <= i <= j < |evals| ==> evals[i].ts <= evals[j].ts)
  }

  lemma ValidPrefix(evals: seq<Evaluation>, n: nat)
    requires ValidRun(evals) && n <= |evals|
    ensures ValidRun(evals[..n])
  {}

  // ---------------------------------------------------------------- one evaluation, key by key

  /** What an evaluation does to one key, given the entry it had before. */
  lemma {:induction false} EvalKey(cfg: Config, active: Active, samples: seq<Sample>, ts: Time, fp: Fingerprint)
    ensures var after := EvalActive(cfg, active, samples, ts);
            && (Present(samples, fp) && fp in active && active[fp].state != Inactive ==>
                  && fp in after && after[fp].activeAt == active[fp].activeAt
                     && after[fp].resolvedAt == active[fp].resolvedAt
                  && after[fp].query == active[fp].query
                  && after[fp].state == (if active[fp].state == Firing
                                         || ts - active[fp].activeAt >= cfg.hold then Firing else Pending))
            && (Present(samples, fp) && (fp !in active || active[fp].state == Inactive) ==>
                  && fp in after && after[fp].activeAt == ts && after[fp].resolvedAt == ZERO_TIME
                  && after[fp].state == (if 0 >= cfg.hold then Firing else Pending))
            && (!Present(samples, fp) ==>
                  && (fp in after <==> fp in active && !Dropped(active[fp], false, ts))
                  && (fp in after ==> after[fp] == SweptEntry(cfg, active[fp], false, ts)))
  {
    BuiltKeys(cfg, samples, ts);
    var built := Built(cfg, samples, ts);
    var merged := Merged(cfg, active, built);
    if Present(samples, fp) {
      assert fp in built && fp in merged && fp in Keys(samples);
    } else {
      assert fp !in Keys(samples);
    }
  }

  /** The records an evaluation makes for one key: at most one. */
  lemma {:induction false} EvalRecordsKey(cfg: Config, active: Active, samples: seq<Sample>, ts: Time, r: Record)
    requires r in EvalRecords(cfg, active, samples, ts)
    ensures r.at == ts
    ensures r.state == ResolvedRecord <==> !Present(samples, r.alert)
    ensures r.state == ResolvedRecord ==>
              r.alert in active && active[r.alert].state != Inactive && r.fingerprint == active[r.alert].query
    ensures r.state != ResolvedRecord ==>
              && (r.alert in active ==> active[r.alert].state != Firing)
              && r.alert in EvalActive(cfg, active, samples, ts)
                 && EvalActive(cfg, active, samples, ts)[r.alert].state == Firing
              && r.fingerprint == EvalActive(cfg, active, samples, ts)[r.alert].query
    ensures forall q :: q in EvalRecords(cfg, active, samples, ts) && q.alert == r.alert ==> q == r
  {
    BuiltKeys(cfg, samples, ts);
  }

  // ---------------------------------------------------------------- what every run keeps

  /** Alerts that are not inactive are exactly the keys of the last result and have no resolution
      time; inactive ones were resolved at most the retention period ago. */
  lemma {:induction false} RunInvariant(cfg: Config, evals: seq<Evaluation>, fp: Fingerprint)
    requires ValidRun(evals) && evals != []
    ensures var last := evals[|evals| - 1];
            var active := Run(cfg, evals);
            && (fp in active && active[fp].state != Inactive <==> Present(last.samples, fp))
            && (fp in active && active[fp].state != Inactive ==> active[fp].resolvedAt == ZERO_TIME)
            && (fp in active && active[fp].state == Inactive ==>
                  ZERO_TIME < active[fp].resolvedAt <= last.ts && last.ts - active[fp].resolvedAt <= RESOLVED_RETENTION)
    decreases |evals|
  {
    var n := |evals| - 1;
    var front, last := evals[..n], evals[n];
    EvalKey(cfg, Run(cfg, front), last.samples, last.ts, fp);
    if n > 0 {
      ValidPrefix(evals, n);
      RunInvariant(cfg, front, fp);
      assert front[n - 1].ts <= last.ts;
    }
  }

  /** A firing alert is never deleted directly: the next evaluation keeps it firing or makes it
      inactive with a record. */
  lemma {:induction false} FiringIsNotDropped(cfg: Config, evals: seq<Evaluation>, fp: Fingerprint)
    requires ValidRun(evals) && evals != []
    requires var before := Run(cfg, evals[..|evals| - 1]); fp in before && before[fp].state == Firing
    ensures fp in Run(cfg, evals)
    ensures var last := evals[|evals| - 1];
            if Present(last.samples, fp) then Run(cfg, evals)[fp].state == Firing
            else Run(cfg, evals)[fp].state == Inactive
                 && exists r :: r in Batch(cfg, evals, |evals| - 1) && r.alert == fp && r.state == ResolvedRecord
  {
    var n := |evals| - 1;
    var front, last := evals[..n], evals[n];
    var before := Run(cfg, front);
    assert n > 0;
    ValidPrefix(evals, n);
    RunInvariant(cfg, front, fp);
    EvalKey(cfg, before, last.samples, last.ts, fp);
    if !Present(last.samples, fp) {
      ResolvesWhenAbsent(cfg, before, last.samples, last.ts, fp);
    }
  }

  lemma {:induction false} ResolvesWhenAbsent(cfg: Config, active: Active, samples: seq<Sample>, ts: Time,
                                              fp: Fingerprint)
    requires fp in active && active[fp].state != Inactive && !Present(samples, fp)
    ensures exists r :: r in EvalRecords(cfg, active, samples, ts) && r.alert == fp && r.state == ResolvedRecord
  {
    BuiltKeys(cfg, samples, ts);
    var merged := Merged(cfg, active, Built(cfg, samples, ts));
    assert merged[fp] == active[fp];
    assert RecordOf(fp, merged[fp], false, ts) in EvalRecords(cfg, active, samples, ts);
  }

  // ---------------------------------------------------------------- the hold timer

  /** i starts the unbroken presence streak of fp that reaches the end of the run. */
  predicate StartsStreak(evals: seq<Evaluation>, fp: Fingerprint, i: nat) {
    && i < |evals|
    && (forall j :: i <= j < |evals| ==> Present(evals[j].samples, fp))
    && (i > 0 ==> !Present(evals[i - 1].samples, fp))
  }

  /** The state of every key of the last result: active since its streak began, and firing exactly
      when the streak has lasted the hold duration. One absence resets the timer. */
  lemma {:induction false} HoldTimer(cfg: Config, evals: seq<Evaluation>, fp: Fingerprint, i: nat)
    requires ValidRun(evals) && StartsStreak(evals, fp, i)
    ensures var active := Run(cfg, evals);
            && fp in active && active[fp].activeAt == evals[i].ts
            && active[fp].state == (if evals[|evals| - 1].ts - evals[i].ts >= cfg.hold then Firing else Pending)
    decreases |evals|
  {
    var n := |evals| - 1;
    var front, last := evals[..n], evals[n];
    assert Present(last.samples, fp);
    EvalKey(cfg, Run(cfg, front), last.samples, last.ts, fp);
    if i < n {
      ValidPrefix(evals, n);
      assert forall j :: i <= j < n ==> front[j] == evals[j];
      HoldTimer(cfg, front, fp, i);
      assert front[n - 1].ts <= last.ts;
    } else if n > 0 {
      ValidPrefix(evals, n);
      assert front[n - 1] == evals[n - 1];
      RunInvariant(cfg, front, fp);
    }
  }

  /** Every key of the last result has such a streak. */
  lemma {:induction false} StreakExists(evals: seq<Evaluation>, fp: Fingerprint) returns (i: nat)
    requires evals != [] && Present(evals[|evals| - 1].samples, fp)
    ensures StartsStreak(evals, fp, i)
  {
    i := |evals| - 1;
    while i > 0 && Present(evals[i - 1].samples, fp)
      invariant i < |evals|
      invariant forall j :: i <= j < |evals| ==> Present(evals[j].samples, fp)
    {
      i := i - 1;
    }
  }

  // ---------------------------------------------------------------- firing and resolving alternate

  /** The records of evaluation i. */
  function Batch(cfg: Config, evals: seq<Evaluation>, i: nat): set<Record>
    requires i < |evals|
  {
    EvalRecords(cfg, Run(cfg, evals[..i]), evals[i].samples, evals[i].ts)
  }

  ghost predicate Fired(cfg: Config, evals: seq<Evaluation>, i: nat, fp: Fingerprint)
    requires i < |evals|
  {
    exists r :: r in Batch(cfg, evals, i) && r.alert == fp && r.state != ResolvedRecord
  }

  ghost predicate Resolved(cfg: Config, evals: seq<Evaluation>, i: nat, fp: Fingerprint)
    requires i < |evals|
  {
    exists r :: r in Batch(cfg, evals, i) && r.alert == fp && r.state == ResolvedRecord
  }

  /** A firing alert that an evaluation does not resolve keeps firing, under the same query hash. */
  lemma {:induction false} KeepsFiring(cfg: Config, active: Active, samples: seq<Sample>, ts: Time, fp: Fingerprint)
    requires fp in active && active[fp].state == Firing
    requires forall r :: r in EvalRecords(cfg, active, samples, ts) && r.alert == fp ==> r.state != ResolvedRecord
    ensures var after := EvalActive(cfg, active, samples, ts);
            fp in after && after[fp].state == Firing && after[fp].query == active[fp].query
  {
    EvalKey(cfg, active, samples, ts, fp);
    if !Present(samples, fp) {
      ResolvesWhenAbsent(cfg, active, samples, ts, fp);
    }
  }

  lemma RunNext(cfg: Config, evals: seq<Evaluation>, k: nat)
    requires k < |evals|
    ensures Run(cfg, evals[..k + 1]) == EvalActive(cfg, Run(cfg, evals[..k]), evals[k].samples, evals[k].ts)
  {
    assert evals[..k + 1][..k] == evals[..k];
  }

  predicate FiringAs(active: Active, fp: Fingerprint, query: Fingerprint) {
    fp in active && active[fp].state == Firing && active[fp].query == query
  }

  /** An alert that fired in evaluation i keeps firing, under the stored fingerprint of that firing, until it
      is resolved. */
  lemma {:induction false} FiresUntilResolved(cfg: Config, evals: seq<Evaluation>, fired: Record, i: nat, k: nat)
    requires i <= k < |evals| && fired in Batch(cfg, evals, i) && fired.state != ResolvedRecord
    requires forall m :: i < m <= k ==> !Resolved(cfg, evals, m, fired.alert)
    ensures FiringAs(Run(cfg, evals[..k + 1]), fired.alert, fired.fingerprint)
    decreases k
  {
    if k == i {
      FiresNow(cfg, evals, fired, i);
    } else {
      FiresUntilResolved(cfg, evals, fired, i, k - 1);
      FiresStill(cfg, evals, k, fired.alert, fired.fingerprint);
    }
  }

  lemma FiresNow(cfg: Config, evals: seq<Evaluation>, fired: Record, i: nat)
    requires i < |evals| && fired in Batch(cfg, evals, i) && fired.state != ResolvedRecord
    ensures FiringAs(Run(cfg, evals[..i + 1]), fired.alert, fired.fingerprint)
  {
    RunNext(cfg, evals, i);
    EvalRecordsKey(cfg, Run(cfg, evals[..i]), evals[i].samples, evals[i].ts, fired);
  }

  lemma FiresStill(cfg: Config, evals: seq<Evaluation>, k: nat, fp: Fingerprint, query: Fingerprint)
    requires k < |evals| && FiringAs(Run(cfg, evals[..k]), fp, query) && !Resolved(cfg, evals, k, fp)
    ensures FiringAs(Run(cfg, evals[..k + 1]), fp, query)
  {
    RunNext(cfg, evals, k);
    KeepsFiring(cfg, Run(cfg, evals[..k]), evals[k].samples, evals[k].ts, fp);
  }

  /** Over any run, two firing (or no-data) records of one alert are separated by a resolved record
      of it, in an evaluation strictly between theirs. */
  lemma {:induction false} FiringsAreSeparated(cfg: Config, evals: seq<Evaluation>, fp: Fingerprint, i: nat, j: nat)
    requires ValidRun(evals) && i < j < |evals|
    requires Fired(cfg, evals, i, fp) && Fired(cfg, evals, j, fp)
    ensures exists m :: i < m < j && Resolved(cfg, evals, m, fp)
  {
    if forall m :: i < m < j ==> !Resolved(cfg, evals, m, fp) {
      var fired :| fired in Batch(cfg, evals, i) && fired.alert == fp && fired.state != ResolvedRecord;
      var last := j - 1;
      FiresUntilResolved(cfg, evals, fired, i, last);
      assert evals[..last + 1] == evals[..j];
      FiringDoesNotFire(cfg, evals, j, fp, fired.fingerprint);
      assert false;
    }
  }

  lemma FiringDoesNotFire(cfg: Config, evals: seq<Evaluation>, j: nat, fp: Fingerprint, query: Fingerprint)
    requires j < |evals| && FiringAs(Run(cfg, evals[..j]), fp, query)
    ensures !Fired(cfg, evals, j, fp)
  {
    forall r | r in Batch(cfg, evals, j) && r.alert == fp ensures r.state == ResolvedRecord {
      EvalRecordsKey(cfg, Run(cfg, evals[..j]), evals[j].samples, evals[j].ts, r);
    }
  }

  // ---------------------------------------------------------------- the stored fingerprint

  /** The series a run may report: pairs of a key and a query hash. */
  type Series = iset<(Fingerprint, Fingerprint)>

  ghost predicate Over(evals: seq<Evaluation>, series: Series) {
    forall i: nat :: i < |evals| ==> SamplesOver(evals[i].samples, series)
  }

  /** No two series share a query hash and differ in their key. */
  ghost predicate OneKeyEach(series: Series) {
    forall p, q :: p in series && q in series && p.1 == q.1 ==> p.0 == q.0
  }

  /** A resolved record with this stored fingerprint lies strictly between the evaluations i and j. */
  ghost predicate StoredResolvedBetween(cfg: Config, evals: seq<Evaluation>, i: nat, j: nat, query: Fingerprint)
    requires i < j < |evals|
  {
    exists m: nat, r :: i < m < j && r in Batch(cfg, evals, m) && r.state == ResolvedRecord && r.fingerprint == query
  }

  /** Firing (or no-data) records of the evaluations i and j with one stored fingerprint. */
  ghost predicate StoredFirings(cfg: Config, evals: seq<Evaluation>, i: nat, j: nat, r1: Record, r2: Record)
    requires i < j < |evals|
  {
    && r1 in Batch(cfg, evals, i) && r2 in Batch(cfg, evals, j)
    && r1.state != ResolvedRecord && r2.state != ResolvedRecord && r1.fingerprint == r2.fingerprint
  }

  /** Such records are always separated by a resolved one. */
  ghost predicate SeparatesStored(cfg: Config, evals: seq<Evaluation>) {
    forall i: nat, j: nat, r1, r2 :: i < j < |evals| && StoredFirings(cfg, evals, i, j, r1, r2) ==>
      StoredResolvedBetween(cfg, evals, i, j, r1.fingerprint)
  }

  ghost predicate SamplesOver(samples: seq<Sample>, series: Series) {
    forall a: nat :: a < |samples| ==> (samples[a].key, samples[a].query) in series
  }

  ghost predicate EntryOver(active: Active, fp: Fingerprint, series: Series) {
    fp in active ==> (fp, active[fp].query) in series
  }

  /** Merging and sweeping bring no query hash that is not one of a sample of the key. */
  lemma {:induction false} QueryKept(cfg: Config, active: Active, samples: seq<Sample>, ts: Time, series: Series,
                                     fp: Fingerprint)
    requires EntryOver(active, fp, series) && SamplesOver(samples, series)
    ensures EntryOver(Merged(cfg, active, Built(cfg, samples, ts)), fp, series)
    ensures EntryOver(EvalActive(cfg, active, samples, ts), fp, series)
  {
    BuiltKeys(cfg, samples, ts);
  }

  /** Every entry carries the query hash of a sample of its key. */
  lemma {:induction false} EntriesOver(cfg: Config, evals: seq<Evaluation>, series: Series, fp: Fingerprint)
    requires Over(evals, series)
    ensures EntryOver(Run(cfg, evals), fp, series)
    decreases |evals|
  {
    if evals != [] {
      var front, last := evals[..|evals| - 1], evals[|evals| - 1];
      EntriesOver(cfg, front, series, fp);
      QueryKept(cfg, Run(cfg, front), last.samples, last.ts, series, fp);
    }
  }

  lemma {:induction false} RecordsOver(cfg: Config, evals: seq<Evaluation>, series: Series, i: nat, r: Record)
    requires Over(evals, series) && i < |evals| && r in Batch(cfg, evals, i)
    ensures (r.alert, r.fingerprint) in series
  {
    EntriesOver(cfg, evals[..i], series, r.alert);
    QueryKept(cfg, Run(cfg, evals[..i]), evals[i].samples, evals[i].ts, series, r.alert);
  }

  lemma {:induction false} LeastAbove(hits: iset<nat>, i: nat, m: nat) returns (first: nat)
    requires i < m && m in hits
    ensures i < first <= m && first in hits && forall k: nat :: i < k < first ==> k !in hits
  {
    first := i + 1;
    while first !in hits
      invariant i < first <= m
      invariant forall k: nat :: i < k < first ==> k !in hits
      decreases m - first
    {
      first := first + 1;
    }
  }

  /** The evaluations that resolve an alert. */
  ghost function Resolutions(cfg: Config, evals: seq<Evaluation>, fp: Fingerprint): iset<nat> {
    iset k: nat | k < |evals| && Resolved(cfg, evals, k, fp)
  }

  lemma FirstResolved(cfg: Config, evals: seq<Evaluation>, fp: Fingerprint, i: nat, j: nat, m: nat) returns (first: nat)
    requires i < m < j < |evals| && m in Resolutions(cfg, evals, fp)
    ensures i < first < j && Resolved(cfg, evals, first, fp)
    ensures forall k: nat :: i < k < first ==> !Resolved(cfg, evals, k, fp)
  {
    first := LeastAbove(Resolutions(cfg, evals, fp), i, m);
    forall k: nat | i < k < first ensures !Resolved(cfg, evals, k, fp) {
      assert k !in Resolutions(cfg, evals, fp);
    }
  }

  /** The first resolved record of an alert still carries the query hash it fired with. */
  lemma {:induction false} ResolvedAsFired(cfg: Config, evals: seq<Evaluation>, fired: Record, i: nat, first: nat)
    returns (r: Record)
    requires ValidRun(evals) && i < first < |evals| && fired in Batch(cfg, evals, i) && fired.state != ResolvedRecord
    requires Resolved(cfg, evals, first, fired.alert)
    requires forall k: nat :: i < k < first ==> !Resolved(cfg, evals, k, fired.alert)
    ensures r in Batch(cfg, evals, first) && r.state == ResolvedRecord && r.fingerprint == fired.fingerprint
  {
    r :| r in Batch(cfg, evals, first) && r.alert == fired.alert && r.state == ResolvedRecord;
    var last := first - 1;
    FiresUntilResolved(cfg, evals, fired, i, last);
    assert evals[..last + 1] == evals[..first];
    ResolvedKeepsQuery(cfg, evals, first, fired.fingerprint, r);
  }

  lemma ResolvedKeepsQuery(cfg: Config, evals: seq<Evaluation>, k: nat, query: Fingerprint, r: Record)
    requires k < |evals| && FiringAs(Run(cfg, evals[..k]), r.alert, query)
    requires r in Batch(cfg, evals, k) && r.state == ResolvedRecord
    ensures r.fingerprint == query
  {
    EvalRecordsKey(cfg, Run(cfg, evals[..k]), evals[k].samples, evals[k].ts, r);
  }

  lemma SameAlert(cfg: Config, evals: seq<Evaluation>, series: Series, i: nat, j: nat, r1: Record, r2: Record)
    requires Over(evals, series) && OneKeyEach(series) && i < j < |evals| && StoredFirings(cfg, evals, i, j, r1, r2)
    ensures r1.alert == r2.alert
    ensures Fired(cfg, evals, i, r1.alert) && Fired(cfg, evals, j, r1.alert)
  {
    RecordsOver(cfg, evals, series, i, r1);
    RecordsOver(cfg, evals, series, j, r2);
  }

  /** The same for the fingerprint that is stored, if no two series of the run share a query hash and differ in
      key. */
  lemma {:induction false} StoredFiringsAreSeparated(cfg: Config, evals: seq<Evaluation>, series: Series,
                                                     i: nat, j: nat, r1: Record, r2: Record)
    requires ValidRun(evals) && Over(evals, series) && OneKeyEach(series)
    requires i < j < |evals| && StoredFirings(cfg, evals, i, j, r1, r2)
    ensures StoredResolvedBetween(cfg, evals, i, j, r1.fingerprint)
  {
    SameAlert(cfg, evals, series, i, j, r1, r2);
    FiringsAreSeparated(cfg, evals, r1.alert, i, j);
    var m: nat :| i < m < j && Resolved(cfg, evals, m, r1.alert);
    ResolvedBetween(cfg, evals, i, j, m, r1);
  }

  /** An alert that is resolved after it fired has a resolved record with the stored fingerprint of that firing. */
  lemma ResolvedBetween(cfg: Config, evals: seq<Evaluation>, i: nat, j: nat, m: nat, fired: Record)
    requires ValidRun(evals) && i < m < j < |evals| && Resolved(cfg, evals, m, fired.alert)
    requires fired in Batch(cfg, evals, i) && fired.state != ResolvedRecord
    ensures StoredResolvedBetween(cfg, evals, i, j, fired.fingerprint)
  {
    var first := FirstResolved(cfg, evals, fired.alert, i, j, m);
    var r := ResolvedAsFired(cfg, evals, fired, i, first);
  }

  /** A key that starts firing gets a record. */
  lemma {:induction false} StartsFiring(cfg: Config, active: Active, samples: seq<Sample>, ts: Time, fp: Fingerprint)
    returns (r: Record)
    requires var after := EvalActive(cfg, active, samples, ts); fp in after && after[fp].state == Firing
    requires fp in active ==> active[fp].state != Firing
    ensures r in EvalRecords(cfg, active, samples, ts) && r.alert == fp && r.state != ResolvedRecord
  {
    BuiltKeys(cfg, samples, ts);
    var merged := Merged(cfg, active, Built(cfg, samples, ts));
    r := RecordOf(fp, merged[fp], true, ts);
  }

  /** Before its streak reaches the hold duration an alert does not fire. */
  lemma {:induction false} NotYetFiring(cfg: Config, evals: seq<Evaluation>, fp: Fingerprint, start: nat)
    requires ValidRun(evals) && evals != []
    requires Present(evals[|evals| - 1].samples, fp) ==>
      StartsStreak(evals, fp, start) && evals[|evals| - 1].ts - evals[start].ts < cfg.hold
    ensures fp in Run(cfg, evals) ==> Run(cfg, evals)[fp].state != Firing
  {
    if Present(evals[|evals| - 1].samples, fp) {
      HoldTimer(cfg, evals, fp, start);
    } else {
      RunInvariant(cfg, evals, fp);
    }
  }

  lemma NotFiringBefore(cfg: Config, evals: seq<Evaluation>, fp: Fingerprint, start: nat, n: nat)
    requires ValidRun(evals) && n < |evals| && StartsStreak(evals[..n + 1], fp, start)
    requires n > start ==> evals[n - 1].ts - evals[start].ts < cfg.hold
    ensures fp in Run(cfg, evals[..n]) ==> Run(cfg, evals[..n])[fp].state != Firing
  {
    if n > 0 {
      var after, before := evals[..n + 1], evals[..n];
      ValidPrefix(evals, n);
      assert forall k :: 0 <= k < n ==> before[k] == after[k] == evals[k];
      NotYetFiring(cfg, before, fp, start);
    }
  }

  /** The evaluation in which a presence streak reaches the hold duration makes a firing record. */
  lemma {:induction false} FiresOnTime(cfg: Config, evals: seq<Evaluation>, fp: Fingerprint, start: nat, n: nat)
    returns (r: Record)
    requires ValidRun(evals) && n < |evals| && StartsStreak(evals[..n + 1], fp, start)
    requires evals[n].ts - evals[start].ts >= cfg.hold
    requires n > start ==> evals[n - 1].ts - evals[start].ts < cfg.hold
    ensures r in Batch(cfg, evals, n) && r.alert == fp && r.state != ResolvedRecord
  {
    var after, before := evals[..n + 1], evals[..n];
    ValidPrefix(evals, n + 1);
    HoldTimer(cfg, after, fp, start);
    NotFiringBefore(cfg, evals, fp, start, n);
    RunNext(cfg, evals, n);
    r := StartsFiring(cfg, Run(cfg, before), evals[n].samples, evals[n].ts, fp);
  }

  /** Two keys with one query hash: the first starts one evaluation before the second. */
  function Overlapping(hold: Time, k1: Fingerprint, k2: Fingerprint, query: Fingerprint): seq<Evaluation> {
    var s1, s2 := Sample(k1, query, 0.0, false, []), Sample(k2, query, 0.0, false, []);
    if hold <= 0 then [Evaluation(1, [s1]), Evaluation(2, [s1, s2])]
    else [Evaluation(1, [s1]), Evaluation(1 + hold, [s1, s2]), Evaluation(1 + 2 * hold, [s1, s2])]
  }

  /** k1 is present throughout, k2 from the second evaluation on, and each reaches the hold duration in
      its own one of the last two evaluations. */
  ghost predicate Overlap(hold: Time, evals: seq<Evaluation>, k1: Fingerprint, k2: Fingerprint) {
    var n := |evals| - 1;
    && n >= 1 && ValidRun(evals)
    && (forall i: nat :: i <= n ==> Present(evals[i].samples, k1) && (Present(evals[i].samples, k2) <==> i >= 1))
    && evals[n - 1].ts - evals[0].ts >= hold && (n > 1 ==> evals[n - 2].ts - evals[0].ts < hold)
    && evals[n].ts - evals[1].ts >= hold && (n > 1 ==> evals[n - 1].ts - evals[1].ts < hold)
  }

  lemma OverlappingOverlaps(hold: Time, k1: Fingerprint, k2: Fingerprint, query: Fingerprint, series: Series)
    requires k1 != k2 && (k1, query) in series && (k2, query) in series
    ensures Overlap(hold, Overlapping(hold, k1, k2, query), k1, k2) && Over(Overlapping(hold, k1, k2, query), series)
  {
    var evals := Overlapping(hold, k1, k2, query);
    forall i: nat | i < |evals|
      ensures Present(evals[i].samples, k1) && (Present(evals[i].samples, k2) <==> i >= 1)
    {
      assert evals[i].samples[0].key == k1;
      assert i >= 1 ==> evals[i].samples[1].key == k2;
    }
  }

  lemma {:induction false} OverlapFires(cfg: Config, evals: seq<Evaluation>, k1: Fingerprint, k2: Fingerprint)
    returns (r1: Record, r2: Record)
    requires Overlap(cfg.hold, evals, k1, k2)
    ensures r1 in Batch(cfg, evals, |evals| - 2) && r1.state != ResolvedRecord
    ensures r2 in Batch(cfg, evals, |evals| - 1) && r2.state != ResolvedRecord
  {
    var n := |evals| - 1;
    assert StartsStreak(evals[..n], k1, 0);
    assert StartsStreak(evals[..n + 1], k2, 1);
    r1 := FiresOnTime(cfg, evals, k1, 0, n - 1);
    r2 := FiresOnTime(cfg, evals, k2, 1, n);
  }

  lemma StoredUnder(cfg: Config, evals: seq<Evaluation>, series: Series, n: nat, r: Record, query: Fingerprint)
    requires Over(evals, series) && n < |evals| && r in Batch(cfg, evals, n)
    requires forall p :: p in series ==> p.1 == query
    ensures r.fingerprint == query
  {
    RecordsOver(cfg, evals, series, n, r);
  }

  lemma OverlapFiresStored(cfg: Config, evals: seq<Evaluation>, series: Series, k1: Fingerprint, k2: Fingerprint,
                           query: Fingerprint)
    returns (r1: Record, r2: Record)
    requires Overlap(cfg.hold, evals, k1, k2) && Over(evals, series) && forall p :: p in series ==> p.1 == query
    ensures |evals| >= 2 && StoredFirings(cfg, evals, |evals| - 2, |evals| - 1, r1, r2)
  {
    r1, r2 := OverlapFires(cfg, evals, k1, k2);
    StoredUnder(cfg, evals, series, |evals| - 2, r1, query);
    StoredUnder(cfg, evals, series, |evals| - 1, r2, query);
  }

  /** Any two keys that share a query hash have a run with firing records of it in adjacent evaluations. */
  lemma {:induction false} SharedQueryFails(cfg: Config, k1: Fingerprint, k2: Fingerprint, query: Fingerprint)
    returns (evals: seq<Evaluation>, r1: Record, r2: Record)
    requires k1 != k2
    ensures ValidRun(evals) && |evals| >= 2 && Over(evals, iset{(k1, query), (k2, query)})
    ensures StoredFirings(cfg, evals, |evals| - 2, |evals| - 1, r1, r2)
  {
    var series := iset{(k1, query), (k2, query)};
    OverlappingOverlaps(cfg.hold, k1, k2, query, series);
    evals := Overlapping(cfg.hold, k1, k2, query);
    r1, r2 := OverlapFiresStored(cfg, evals, series, k1, k2, query);
  }

  ghost predicate AlwaysSeparates(cfg: Config, series: Series) {
    forall evals :: ValidRun(evals) && Over(evals, series) ==> SeparatesStored(cfg, evals)
  }

  /** Exactly when stored firings are always separated: every run over some series separates them if and only if no
      two of those series share a query hash and differ in key. */
  lemma {:induction false} StoredSeparationIff(cfg: Config, series: Series)
    ensures AlwaysSeparates(cfg, series) <==> OneKeyEach(series)
  {
    if OneKeyEach(series) {
      forall evals | ValidRun(evals) && Over(evals, series)
        ensures SeparatesStored(cfg, evals)
      {
        forall i: nat, j: nat, r1, r2 | i < j < |evals| && StoredFirings(cfg, evals, i, j, r1, r2)
          ensures StoredResolvedBetween(cfg, evals, i, j, r1.fingerprint)
        {
          StoredFiringsAreSeparated(cfg, evals, series, i, j, r1, r2);
        }
      }
    } else {
      var p, q :| p in series && q in series && p.1 == q.1 && p.0 != q.0;
      OneKeyIsNeeded(cfg, series, p.0, q.0, p.1);
    }
  }

  lemma AdjacentFails(cfg: Config, series: Series, evals: seq<Evaluation>, n: nat, r1: Record, r2: Record)
    requires ValidRun(evals) && Over(evals, series)
    requires n + 1 < |evals| && StoredFirings(cfg, evals, n, n + 1, r1, r2)
    ensures !AlwaysSeparates(cfg, series)
  {
    assert !StoredResolvedBetween(cfg, evals, n, n + 1, r1.fingerprint);
  }

  lemma OverMore(evals: seq<Evaluation>, few: Series, many: Series)
    requires Over(evals, few) && few <= many
    ensures Over(evals, many)
  {
    forall i: nat | i < |evals| ensures SamplesOver(evals[i].samples, many) {
      assert SamplesOver(evals[i].samples, few);
    }
  }

  lemma OneKeyIsNeeded(cfg: Config, series: Series, k1: Fingerprint, k2: Fingerprint, query: Fingerprint)
    requires k1 != k2 && (k1, query) in series && (k2, query) in series
    ensures !AlwaysSeparates(cfg, series)
  {
    var evals, r1, r2 := SharedQueryFails(cfg, k1, k2, query);
    OverMore(evals, iset{(k1, query), (k2, query)}, series);
    var n := |evals| - 2;
    AdjacentFails(cfg, series, evals, n, r1, r2);
  }
}
