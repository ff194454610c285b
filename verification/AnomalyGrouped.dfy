/**
  Stored firings when no query result lists one set of labels twice, as the results of a grouped query. Two keys
  can still share a query hash, because a rule label may be a template over the value, and one key can have several,
  because a rule label may replace a label of the result.
 */
module AnomalyGrouped {
  import opened AnomalyModel
  import opened AnomalyRuns

  ghost predicate Grouped(evals: seq<Evaluation>) {
    forall i: nat :: i < |evals| ==> DistinctQueries(evals[i].samples)
  }

  predicate DistinctQueries(samples: seq<Sample>) {
    forall a: nat, b: nat :: a < b < |samples| ==> samples[a].query != samples[b].query
  }

  /** One key has two query hashes, one of which another key has as well. */
  ghost predicate Straddles(series: Series, k1: Fingerprint, k2: Fingerprint, query: Fingerprint, other: Fingerprint) {
    && k1 != k2 && query != other
    && (k1, query) in series && (k2, query) in series && (k1, other) in series
  }

  /** A key that shares a query hash with another key has no second one. */
  ghost predicate NoneStraddles(series: Series) {
    forall k1, k2, query, other :: !Straddles(series, k1, k2, query, other)
  }

  // ---------------------------------------------------------------- why they are separated

  lemma OnlyQuery(samples: seq<Sample>, series: Series, k1: Fingerprint, k2: Fingerprint, query: Fingerprint)
    returns (a: nat)
    requires SamplesOver(samples, series) && NoneStraddles(series) && Present(samples, k1)
    requires k1 != k2 && (k1, query) in series && (k2, query) in series
    ensures a < |samples| && samples[a].key == k1 && samples[a].query == query
  {
    a :| a < |samples| && samples[a].key == k1;
    assert !Straddles(series, k1, k2, query, samples[a].query);
  }

  /** Keys that share a query hash do not both occur in one result. */
  lemma NotTogether(samples: seq<Sample>, series: Series, k1: Fingerprint, k2: Fingerprint, query: Fingerprint)
    requires SamplesOver(samples, series) && DistinctQueries(samples) && NoneStraddles(series)
    requires k1 != k2 && (k1, query) in series && (k2, query) in series && Present(samples, k2)
    ensures !Present(samples, k1)
  {
    if Present(samples, k1) {
      var a := OnlyQuery(samples, series, k1, k2, query);
      var b := OnlyQuery(samples, series, k2, k1, query);
      assert false;
    }
  }

  lemma FiresPresent(cfg: Config, evals: seq<Evaluation>, j: nat, r: Record)
    requires j < |evals| && r in Batch(cfg, evals, j) && r.state != ResolvedRecord
    ensures Present(evals[j].samples, r.alert)
    ensures var after := Run(cfg, evals[..j + 1]); r.alert in after && after[r.alert].state == Firing
  {
    EvalRecordsKey(cfg, Run(cfg, evals[..j]), evals[j].samples, evals[j].ts, r);
    RunNext(cfg, evals, j);
  }

  /** With a positive hold duration an alert was there before it fires. */
  lemma {:induction false} FiredAfterHold(cfg: Config, evals: seq<Evaluation>, j: nat, r: Record) returns (start: nat)
    requires ValidRun(evals) && j < |evals| && r in Batch(cfg, evals, j) && r.state != ResolvedRecord && cfg.hold > 0
    ensures start < j && forall k: nat :: start <= k <= j ==> Present(evals[k].samples, r.alert)
  {
    var upTo := evals[..j + 1];
    ValidPrefix(evals, j + 1);
    FiresPresent(cfg, evals, j, r);
    start := StreakExists(upTo, r.alert);
    HoldTimer(cfg, upTo, r.alert, start);
    StreakIsPresent(evals, j, r.alert, start);
  }

  lemma StreakIsPresent(evals: seq<Evaluation>, j: nat, fp: Fingerprint, start: nat)
    requires j < |evals| && StartsStreak(evals[..j + 1], fp, start)
    ensures forall k: nat :: start <= k <= j ==> Present(evals[k].samples, fp)
  {
    forall k: nat | start <= k <= j ensures Present(evals[k].samples, fp) {
      assert evals[..j + 1][k] == evals[k];
    }
  }

  /** An alert that fired and is absent later is resolved by then. */
  lemma {:induction false} ResolvedByThen(cfg: Config, evals: seq<Evaluation>, i: nat, k: nat, fired: Record)
    returns (m: nat)
    requires ValidRun(evals) && i < k < |evals| && fired in Batch(cfg, evals, i) && fired.state != ResolvedRecord
    requires !Present(evals[k].samples, fired.alert)
    ensures i < m <= k && Resolved(cfg, evals, m, fired.alert)
  {
    if forall m :: i < m <= k ==> !Resolved(cfg, evals, m, fired.alert) {
      FiresUntilResolved(cfg, evals, fired, i, k);
      AbsentIsNotFiring(cfg, evals, k, fired.alert);
      assert false;
    }
    m :| i < m <= k && Resolved(cfg, evals, m, fired.alert);
  }

  lemma AbsentIsNotFiring(cfg: Config, evals: seq<Evaluation>, k: nat, fp: Fingerprint)
    requires ValidRun(evals) && k < |evals| && !Present(evals[k].samples, fp)
    ensures var after := Run(cfg, evals[..k + 1]); fp in after ==> after[fp].state != Firing
  {
    var upTo := evals[..k + 1];
    ValidPrefix(evals, k + 1);
    assert upTo[|upTo| - 1] == evals[k];
    RunInvariant(cfg, upTo, fp);
  }

  /** With a positive hold duration stored firings are separated, whatever the keys. */
  lemma {:induction false} GroupedFiringsAreSeparated(cfg: Config, evals: seq<Evaluation>, series: Series,
                                                      i: nat, j: nat, r1: Record, r2: Record)
    requires ValidRun(evals) && Grouped(evals) && Over(evals, series) && NoneStraddles(series) && cfg.hold > 0
    requires i < j < |evals| && StoredFirings(cfg, evals, i, j, r1, r2)
    ensures StoredResolvedBetween(cfg, evals, i, j, r1.fingerprint)
  {
    var m: nat;
    if r1.alert == r2.alert {
      FiringsAreSeparated(cfg, evals, r1.alert, i, j);
      m :| i < m < j && Resolved(cfg, evals, m, r1.alert);
    } else {
      RecordsOver(cfg, evals, series, i, r1);
      RecordsOver(cfg, evals, series, j, r2);
      FiresPresent(cfg, evals, i, r1);
      var start := FiredAfterHold(cfg, evals, j, r2);
      KeysApart(evals, series, r1.alert, r2.alert, r1.fingerprint, start, j);
      m := ResolvedByThen(cfg, evals, i, start, r1);
    }
    ResolvedBetween(cfg, evals, i, j, m, r1);
  }

  /** While one of two keys with one query hash is there, the other is not. */
  lemma KeysApart(evals: seq<Evaluation>, series: Series, k1: Fingerprint, k2: Fingerprint, query: Fingerprint,
                  start: nat, j: nat)
    requires Grouped(evals) && Over(evals, series) && NoneStraddles(series) && start <= j < |evals|
    requires k1 != k2 && (k1, query) in series && (k2, query) in series
    requires forall k: nat :: start <= k <= j ==> Present(evals[k].samples, k2)
    ensures forall k: nat :: start <= k <= j ==> !Present(evals[k].samples, k1)
  {
    forall k: nat | start <= k <= j ensures !Present(evals[k].samples, k1) {
      NotTogether(evals[k].samples, series, k1, k2, query);
    }
  }

  // ---------------------------------------------------------------- how they fail

  ghost predicate AlwaysSeparatesGrouped(cfg: Config, series: Series) {
    forall evals :: ValidRun(evals) && Grouped(evals) && Over(evals, series) ==> SeparatesStored(cfg, evals)
  }

  function Seen(key: Fingerprint, query: Fingerprint): Sample {
    Sample(key, query, 0.0, false, [])
  }

  /** Without a hold duration one key follows the other. */
  lemma {:induction false} KeysInTurn(cfg: Config, k1: Fingerprint, k2: Fingerprint, query: Fingerprint)
    returns (evals: seq<Evaluation>, r1: Record, r2: Record)
    requires k1 != k2 && cfg.hold <= 0
    ensures ValidRun(evals) && Grouped(evals) && |evals| == 2 && Over(evals, iset{(k1, query), (k2, query)})
    ensures StoredFirings(cfg, evals, 0, 1, r1, r2)
  {
    evals := [Evaluation(1, [Seen(k1, query)]), Evaluation(2, [Seen(k2, query)])];
    assert evals[0].samples[0].key == k1 && evals[1].samples[0].key == k2;
    assert StartsStreak(evals[..1], k1, 0) && StartsStreak(evals[..2], k2, 1);
    r1 := FiresOnTime(cfg, evals, k1, 0, 0);
    r2 := FiresOnTime(cfg, evals, k2, 1, 1);
    RecordsOver(cfg, evals, iset{(k1, query), (k2, query)}, 0, r1);
    RecordsOver(cfg, evals, iset{(k1, query), (k2, query)}, 1, r2);
  }

  /** k1 fires under the query hash, then another series takes over k1 while the first one shows as k2. */
  function TakenOver(hold: Time, k1: Fingerprint, k2: Fingerprint, query: Fingerprint,
                     other: Fingerprint): seq<Evaluation> {
    [Evaluation(1, [Seen(k1, query)]), Evaluation(1 + hold, [Seen(k1, query)]),
     Evaluation(2 + hold, [Seen(k1, other), Seen(k2, query)]),
     Evaluation(2 + 2 * hold, [Seen(k1, other), Seen(k2, query)])]
  }

  ghost predicate IsTakeOver(hold: Time, evals: seq<Evaluation>, k1: Fingerprint, k2: Fingerprint, query: Fingerprint,
                             other: Fingerprint) {
    && |evals| == 4 && ValidRun(evals) && Grouped(evals)
    && Over(evals[..2], iset{(k1, query)}) && Over(evals, iset{(k1, query), (k2, query), (k1, other)})
    && (forall i: nat :: i < 4 ==> Present(evals[i].samples, k1) && (Present(evals[i].samples, k2) <==> i >= 2))
    && evals[1].ts - evals[0].ts == hold && evals[3].ts - evals[2].ts == hold
  }

  lemma TakenOverIsTakeOver(hold: Time, k1: Fingerprint, k2: Fingerprint, query: Fingerprint, other: Fingerprint)
    requires hold > 0 && k1 != k2 && query != other
    ensures IsTakeOver(hold, TakenOver(hold, k1, k2, query, other), k1, k2, query, other)
  {
    var evals := TakenOver(hold, k1, k2, query, other);
    TakenOverSamples(k1, k2, query, other);
    assert evals[..2] == [evals[0], evals[1]];
  }

  /** The two results of that run. */
  lemma TakenOverSamples(k1: Fingerprint, k2: Fingerprint, query: Fingerprint, other: Fingerprint)
    requires k1 != k2 && query != other
    ensures var first, second := [Seen(k1, query)], [Seen(k1, other), Seen(k2, query)];
            && SamplesOver(first, iset{(k1, query)}) && SamplesOver(second, iset{(k1, query), (k2, query), (k1, other)})
            && Distinct(first) && Distinct(second) && DistinctQueries(first) && DistinctQueries(second)
            && Present(first, k1) && !Present(first, k2) && Present(second, k1) && Present(second, k2)
  {
    var first, second := [Seen(k1, query)], [Seen(k1, other), Seen(k2, query)];
    assert first[0].key == k1 && second[0].key == k1 && second[1].key == k2;
  }

  lemma {:induction false} TakeOverFires(cfg: Config, evals: seq<Evaluation>, k1: Fingerprint, k2: Fingerprint,
                                         query: Fingerprint, other: Fingerprint)
    returns (r1: Record, r2: Record)
    requires IsTakeOver(cfg.hold, evals, k1, k2, query, other) && k1 != k2 && cfg.hold > 0
    ensures StoredFirings(cfg, evals, 1, 3, r1, r2) && r1.fingerprint == query
  {
    r1 := FirstFires(cfg, evals, k1, k2, query, other);
    r2 := SecondFires(cfg, evals, k1, k2, query, other);
  }

  lemma FirstFires(cfg: Config, evals: seq<Evaluation>, k1: Fingerprint, k2: Fingerprint, query: Fingerprint,
                   other: Fingerprint)
    returns (r: Record)
    requires IsTakeOver(cfg.hold, evals, k1, k2, query, other) && cfg.hold > 0
    ensures r in Batch(cfg, evals, 1) && r.state != ResolvedRecord && r.fingerprint == query
  {
    assert StartsStreak(evals[..2], k1, 0);
    r := FiresOnTime(cfg, evals, k1, 0, 1);
    assert evals[..2][..1] == evals[..1];
    RecordsOver(cfg, evals[..2], iset{(k1, query)}, 1, r);
  }

  lemma SecondFires(cfg: Config, evals: seq<Evaluation>, k1: Fingerprint, k2: Fingerprint, query: Fingerprint,
                    other: Fingerprint)
    returns (r: Record)
    requires IsTakeOver(cfg.hold, evals, k1, k2, query, other) && k1 != k2 && cfg.hold > 0
    ensures r in Batch(cfg, evals, 3) && r.state != ResolvedRecord && r.fingerprint == query
  {
    assert StartsStreak(evals[..4], k2, 2);
    r := FiresOnTime(cfg, evals, k2, 2, 3);
    RecordsOver(cfg, evals, iset{(k1, query), (k2, query), (k1, other)}, 3, r);
  }

  lemma {:induction false} TakeOverResolvesNothing(cfg: Config, evals: seq<Evaluation>, k1: Fingerprint,
                                                   k2: Fingerprint, query: Fingerprint, other: Fingerprint)
    requires IsTakeOver(cfg.hold, evals, k1, k2, query, other)
    ensures !StoredResolvedBetween(cfg, evals, 1, 3, query)
  {
    forall r | r in Batch(cfg, evals, 2) ensures r.state != ResolvedRecord {
      RecordsOver(cfg, evals, iset{(k1, query), (k2, query), (k1, other)}, 2, r);
      EvalRecordsKey(cfg, Run(cfg, evals[..2]), evals[2].samples, evals[2].ts, r);
    }
  }

  /** With a positive hold duration, too, such keys have a run in which stored firings are not separated. */
  lemma {:induction false} TakeOverFails(cfg: Config, k1: Fingerprint, k2: Fingerprint, query: Fingerprint,
                                         other: Fingerprint)
    returns (evals: seq<Evaluation>)
    requires k1 != k2 && query != other && cfg.hold > 0
    ensures ValidRun(evals) && Grouped(evals) && Over(evals, iset{(k1, query), (k2, query), (k1, other)})
    ensures !SeparatesStored(cfg, evals)
  {
    evals := TakenOver(cfg.hold, k1, k2, query, other);
    TakenOverIsTakeOver(cfg.hold, k1, k2, query, other);
    var r1, r2 := TakeOverFires(cfg, evals, k1, k2, query, other);
    TakeOverResolvesNothing(cfg, evals, k1, k2, query, other);
    assert !StoredResolvedBetween(cfg, evals, 1, 3, r1.fingerprint);
  }

  // ---------------------------------------------------------------- exactly when

  lemma FailsGrouped(cfg: Config, series: Series, few: Series, evals: seq<Evaluation>)
    requires ValidRun(evals) && Grouped(evals) && Over(evals, few) && few <= series && !SeparatesStored(cfg, evals)
    ensures !AlwaysSeparatesGrouped(cfg, series)
  {
    OverMore(evals, few, series);
  }

  lemma WithoutHold(cfg: Config, series: Series)
    requires cfg.hold <= 0
    ensures AlwaysSeparatesGrouped(cfg, series) <==> OneKeyEach(series)
  {
    if OneKeyEach(series) {
      StoredSeparationIff(cfg, series);
    } else {
      var p, q :| p in series && q in series && p.1 == q.1 && p.0 != q.0;
      var evals, r1, r2 := KeysInTurn(cfg, p.0, q.0, p.1);
      assert !StoredResolvedBetween(cfg, evals, 0, 1, r1.fingerprint);
      FailsGrouped(cfg, series, iset{(p.0, p.1), (q.0, p.1)}, evals);
    }
  }

  lemma RunSeparates(cfg: Config, evals: seq<Evaluation>, series: Series)
    requires ValidRun(evals) && Grouped(evals) && Over(evals, series) && NoneStraddles(series) && cfg.hold > 0
    ensures SeparatesStored(cfg, evals)
  {
    forall i: nat, j: nat, r1, r2 | i < j < |evals| && StoredFirings(cfg, evals, i, j, r1, r2)
      ensures StoredResolvedBetween(cfg, evals, i, j, r1.fingerprint)
    {
      GroupedFiringsAreSeparated(cfg, evals, series, i, j, r1, r2);
    }
  }

  lemma WithHold(cfg: Config, series: Series)
    requires cfg.hold > 0
    ensures AlwaysSeparatesGrouped(cfg, series) <==> NoneStraddles(series)
  {
    if NoneStraddles(series) {
      forall evals | ValidRun(evals) && Grouped(evals) && Over(evals, series) ensures SeparatesStored(cfg, evals) {
        RunSeparates(cfg, evals, series);
      }
    } else {
      var k1, k2, query, other :| Straddles(series, k1, k2, query, other);
      StraddlingFails(cfg, series, k1, k2, query, other);
    }
  }

  lemma StraddlingFails(cfg: Config, series: Series, k1: Fingerprint, k2: Fingerprint, query: Fingerprint,
                        other: Fingerprint)
    requires cfg.hold > 0 && Straddles(series, k1, k2, query, other)
    ensures !AlwaysSeparatesGrouped(cfg, series)
  {
    var evals := TakeOverFails(cfg, k1, k2, query, other);
    FailsGrouped(cfg, series, iset{(k1, query), (k2, query), (k1, other)}, evals);
  }

  /** Exactly when stored firings are always separated over grouped results: with a positive hold duration, if no key
      that shares a query hash with another key has a second one; without one, if no two keys share a query hash. */
  lemma {:induction false} GroupedSeparationIff(cfg: Config, series: Series)
    ensures AlwaysSeparatesGrouped(cfg, series) <==> if cfg.hold > 0 then NoneStraddles(series) else OneKeyEach(series)
  {
    if cfg.hold > 0 {
      WithHold(cfg, series);
    } else {
      WithoutHold(cfg, series);
    }
  }

  // ---------------------------------------------------------------- a run that fails

  /** It really happens: a rule label whose template reads the value changes the key with the value, but not the
      stored fingerprint. The firing record of the second evaluation follows that of the first with no resolved
      record in between. */
  lemma StoredFiringsCanBeAdjacent()
    ensures var cfg := Config(0, []);
            var evals := [Evaluation(1, [Sample(1, 7, 5.0, false, [])]),
                          Evaluation(2, [Sample(2, 7, 95.0, false, [])])];
            && ValidRun(evals) && Grouped(evals)
            && Record(1, 7, FiringRecord, 1, 5.0) in Batch(cfg, evals, 0)
            && Record(2, 7, FiringRecord, 2, 95.0) in Batch(cfg, evals, 1)
  {
    var cfg := Config(0, []);
    var s1, s2 := Sample(1, 7, 5.0, false, []), Sample(2, 7, 95.0, false, []);
    var evals := [Evaluation(1, [s1]), Evaluation(2, [s2])];
    assert evals[..0] == [] && evals[..1] == [evals[0]] && [evals[0]][..0] == [];
    FiresAtOnce(cfg, map[], s1, 1);
    var active := Run(cfg, evals[..1]);
    EvalKey(cfg, map[], [s1], 1, 2);
    assert 2 !in active by {
      assert [s1][0].key == 1;
      assert active == EvalActive(cfg, Run(cfg, []), [s1], 1);
    }
    FiresAtOnce(cfg, active, s2, 2);
  }

  lemma FiresAtOnce(cfg: Config, active: Active, sm: Sample, ts: Time)
    requires sm.key !in active && cfg.hold <= 0
    ensures Record(sm.key, sm.query, if sm.missing then NoDataRecord else FiringRecord, ts, sm.value)
            in EvalRecords(cfg, active, [sm], ts)
  {
    var samples := [sm];
    assert samples[..0] == [];
    assert Built(cfg, samples, ts) == map[sm.key := FreshEntry(cfg, sm, ts)];
    assert samples[0].key in Keys(samples);
    var merged := Merged(cfg, active, Built(cfg, samples, ts));
    assert merged[sm.key] == FreshEntry(cfg, sm, ts);
    assert RecordOf(sm.key, merged[sm.key], true, ts) in EvalRecords(cfg, active, samples, ts);
  }
}
