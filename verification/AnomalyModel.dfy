/**
  What one evaluation of an anomaly rule means (anomaly.go, Eval): a function of the active alerts,
  the query result and the evaluation time. Label hashes and query results are parameters; times are
  integers in nanoseconds and 0 is Go's zero time.
 */
module AnomalyModel {

  type Fingerprint = nat
  type Time = int

  const ZERO_TIME: Time := 0
  /** baserules.ResolvedRetention: 15 minutes. */
  const RESOLVED_RETENTION: Time := 900_000_000_000

  datatype AlertState = Inactive | Pending | Firing

  /** One series that should alert. key hashes all labels of the alert, query only those of the
      query result. */
  datatype Sample = Sample(key: Fingerprint, query: Fingerprint, value: real, missing: bool, annotations: seq<string>)

  datatype Entry = Entry(state: AlertState, activeAt: Time, firedAt: Time, resolvedAt: Time,
                         value: real, annotations: seq<string>, receivers: seq<string>,
                         query: Fingerprint, missing: bool)

  datatype RecordState = ResolvedRecord | FiringRecord | NoDataRecord

  /** A history record. alert is the key it came from; the stored fingerprint is the query hash. */
  datatype Record = Record(alert: Fingerprint, fingerprint: Fingerprint, state: RecordState, at: Time, value: real)

  /** A record as handed to RecordRuleStateHistory, with the state of the whole rule. */
  datatype HistoryItem = HistoryItem(record: Record, overallState: AlertState, overallStateChanged: bool)

  datatype Config = Config(hold: Time, receivers: seq<string>)

  type Active = map<Fingerprint, Entry>

  predicate Distinct(samples: seq<Sample>) {
    forall i, j :: 0 <= i < j < |samples| ==> samples[i].key != samples[j].key
  }

  predicate Present(samples: seq<Sample>, fp: Fingerprint) {
    exists i :: 0 <= i < |samples| && samples[i].key == fp
  }

  function Keys(samples: seq<Sample>): (keys: set<Fingerprint>)
    ensures forall fp :: fp in keys <==> Present(samples, fp)
  {
    set i | 0 <= i < |samples| :: samples[i].key
  }

  function FreshEntry(cfg: Config, sm: Sample, ts: Time): Entry {
    Entry(Pending, ts, ZERO_TIME, ZERO_TIME, sm.value, sm.annotations, cfg.receivers, sm.query, sm.missing)
  }

  /** The alerts built from the samples. */
  function Built(cfg: Config, samples: seq<Sample>, ts: Time): Active
    decreases |samples|
  {
    if samples == [] then map[]
    else
      var sm := samples[|samples| - 1];
      Built(cfg, samples[..|samples| - 1], ts)[sm.key := FreshEntry(cfg, sm, ts)]
  }

  /** Merging one built alert with the entry of the same key, if there is one. */
  function MergeEntry(cfg: Config, e: Entry, a: Entry): Entry {
    if e.state != Inactive then e.(value := a.value, annotations := a.annotations, receivers := cfg.receivers) else a
  }

  function Merged(cfg: Config, active: Active, alerts: Active): Active {
    map fp | fp in active.Keys + alerts.Keys ::
      if fp !in alerts then active[fp]
      else if fp in active then MergeEntry(cfg, active[fp], alerts[fp])
      else alerts[fp]
  }

  /** Is the entry deleted by the sweep? */
  predicate Dropped(e: Entry, present: bool, ts: Time) {
    !present && (e.state == Pending || (e.resolvedAt != ZERO_TIME && ts - e.resolvedAt > RESOLVED_RETENTION))
  }

  function SweptEntry(cfg: Config, e: Entry, present: bool, ts: Time): Entry {
    if !present then
      (if e.state != Inactive then e.(state := Inactive, resolvedAt := ts) else e)
    else if e.state == Pending && ts - e.activeAt >= cfg.hold then e.(state := Firing, firedAt := ts)
    else e
  }

  /** Does the sweep append a record for the entry, and which? */
  predicate Recorded(cfg: Config, e: Entry, present: bool, ts: Time) {
    if !present then e.state != Inactive else e.state == Pending && ts - e.activeAt >= cfg.hold
  }

  function RecordOf(fp: Fingerprint, e: Entry, present: bool, ts: Time): Record {
    var state := if !present then ResolvedRecord else if e.missing then NoDataRecord else FiringRecord;
    Record(fp, e.query, state, ts, e.value)
  }

  function Swept(cfg: Config, active: Active, present: set<Fingerprint>, ts: Time): Active {
    map fp | fp in active && !Dropped(active[fp], fp in present, ts) :: SweptEntry(cfg, active[fp], fp in present, ts)
  }

  function SweepRecords(cfg: Config, active: Active, present: set<Fingerprint>, ts: Time): set<Record> {
    set fp | fp in active && Recorded(cfg, active[fp], fp in present, ts) :: RecordOf(fp, active[fp], fp in present, ts)
  }

  /** State(): the highest state of any active alert. */
  function Overall(active: Active): AlertState {
    if exists fp :: fp in active && active[fp].state == Firing then Firing
    else if exists fp :: fp in active && active[fp].state == Pending then Pending
    else Inactive
  }

  function Stamp(items: seq<Record>, state: AlertState, changed: bool): (stamped: seq<HistoryItem>)
    ensures |stamped| == |items|
    ensures forall i: nat :: i < |items| ==> stamped[i] == HistoryItem(items[i], state, changed)
  {
    seq(|items|, i requires 0 <= i < |items| => HistoryItem(items[i], state, changed))
  }

  /** The active map after a successful evaluation. */
  function EvalActive(cfg: Config, active: Active, samples: seq<Sample>, ts: Time): Active {
    Swept(cfg, Merged(cfg, active, Built(cfg, samples, ts)), Keys(samples), ts)
  }

  /** The records of a successful evaluation; their order is up to map iteration. */
  function EvalRecords(cfg: Config, active: Active, samples: seq<Sample>, ts: Time): set<Record> {
    SweepRecords(cfg, Merged(cfg, active, Built(cfg, samples, ts)), Keys(samples), ts)
  }

  lemma {:induction false} BuiltKeys(cfg: Config, samples: seq<Sample>, ts: Time)
    ensures Built(cfg, samples, ts).Keys == Keys(samples)
    ensures forall fp :: fp in Built(cfg, samples, ts) ==>
              exists i :: 0 <= i < |samples| && samples[i].key == fp
                          && Built(cfg, samples, ts)[fp] == FreshEntry(cfg, samples[i], ts)
    decreases |samples|
  {
    if samples != [] {
      var n := |samples| - 1;
      var front := samples[..n];
      BuiltKeys(cfg, front, ts);
      var b := Built(cfg, samples, ts);
      forall fp | fp in b
        ensures Present(samples, fp)
        ensures exists i :: 0 <= i < |samples| && samples[i].key == fp && b[fp] == FreshEntry(cfg, samples[i], ts)
      {
        if fp == samples[n].key {
        } else {
          var i :| 0 <= i < |front| && front[i].key == fp && Built(cfg, front, ts)[fp] == FreshEntry(cfg, front[i], ts);
          assert samples[i] == front[i];
        }
      }
      forall fp | Present(samples, fp)
        ensures fp in b
      {
        var i :| 0 <= i < |samples| && samples[i].key == fp;
        if i < n {
          assert front[i].key == fp;
          assert Present(front, fp);
        }
      }
    }
  }
}
