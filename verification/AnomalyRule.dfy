/**
  AnomalyRule.Eval on the heap: alerts are objects shared with the Active map and updated in place.
  The two loops over maps pick keys in any order, so their contracts hold for every iteration order.
 */
module AnomalyRule {
  import opened AnomalyModel

  datatype Option<+T> = None | Some(value: T)

  class Alert {
    var state: AlertState
    var activeAt: Time
    var firedAt: Time
    var resolvedAt: Time
    var value: real
    var annotations: seq<string>
    var receivers: seq<string>
    const query: Fingerprint
    const missing: bool

    constructor (cfg: Config, sm: Sample, ts: Time)
      ensures Get() == FreshEntry(cfg, sm, ts)
    {
      state := Pending;
      activeAt, firedAt, resolvedAt := ts, ZERO_TIME, ZERO_TIME;
      value, annotations, receivers := sm.value, sm.annotations, cfg.receivers;
      query, missing := sm.query, sm.missing;
    }

    function Get(): Entry
      reads this
    {
      Entry(state, activeAt, firedAt, resolvedAt, value, annotations, receivers, query, missing)
    }

    /** An alert that is not inactive takes over the last value and annotations. */
    method Refresh(cfg: Config, a: Alert)
      requires state != Inactive && a != this
      modifies this
      ensures Get() == MergeEntry(cfg, old(Get()), old(a.Get()))
    {
      value := a.value;
      annotations := a.annotations;
      receivers := cfg.receivers;
    }

    /** The body of the sweep loop for one alert. */
    method Sweep(cfg: Config, fp: Fingerprint, present: bool, ts: Time) returns (dropped: bool, items: seq<Record>)
      modifies this
      ensures Get() == SweptEntry(cfg, old(Get()), present, ts)
      ensures dropped == Dropped(old(Get()), present, ts)
      ensures items == if Recorded(cfg, old(Get()), present, ts) then [RecordOf(fp, old(Get()), present, ts)] else []
    {
      dropped, items := false, [];
      if !present {
        if state == Pending || (resolvedAt != ZERO_TIME && ts - resolvedAt > RESOLVED_RETENTION) {
          dropped := true;
        }
        if state != Inactive {
          state := Inactive;
          resolvedAt := ts;
          items := [Record(fp, query, ResolvedRecord, ts, value)];
        }
      } else if state == Pending && ts - activeAt >= cfg.hold {
        state := Firing;
        firedAt := ts;
        var recordState := FiringRecord;
        if missing {
          recordState := NoDataRecord;
        }
        items := [Record(fp, query, recordState, ts, value)];
      }
    }
  }

  /** No two keys share an alert object. */
  ghost predicate Separate(alerts: map<Fingerprint, Alert>) {
    forall a, b :: a in alerts && b in alerts && a != b ==> alerts[a] != alerts[b]
  }

  ghost function Entries(alerts: map<Fingerprint, Alert>): Active
    reads set fp | fp in alerts :: alerts[fp]
  {
    map fp | fp in alerts :: alerts[fp].Get()
  }

  class Rule {
    const cfg: Config
    var active: map<Fingerprint, Alert>
    /** Everything handed to RecordRuleStateHistory, in order. */
    var history: seq<HistoryItem>

    constructor (cfg: Config)
      ensures this.cfg == cfg && active == map[] && history == []
    {
      this.cfg := cfg;
      active := map[];
      history := [];
    }

    /** State(): the highest state of any active alert. */
    method State() returns (s: AlertState)
      ensures s == Overall(Entries(active))
    {
      s := Inactive;
      var todo := active.Keys;
      while todo != {}
        invariant todo <= active.Keys
        invariant s == Firing ==> exists fp :: fp in active && active[fp].state == Firing
        invariant s == Pending ==> exists fp :: fp in active && active[fp].state == Pending
        invariant s != Firing ==> forall fp :: fp in active && fp !in todo ==> active[fp].state != Firing
        invariant s == Inactive ==> forall fp :: fp in active && fp !in todo ==> active[fp].state == Inactive
        decreases todo
      {
        var fp :| fp in todo;
        todo := todo - {fp};
        var a := active[fp].state;
        if a == Firing || (a == Pending && s == Inactive) {
          s := a;
        }
      }
      assert forall fp :: fp in active ==> Entries(active)[fp].state == active[fp].state;
    }

    /** The body of the building loop, for a key that is new. */
    method AddAlert(built: map<Fingerprint, Alert>, sm: Sample, ts: Time, ghost cur: Active)
      returns (more: map<Fingerprint, Alert>)
      requires Separate(built) && Holds(built, cur) && sm.key !in built
      ensures sm.key in more && fresh(more[sm.key]) && more == built[sm.key := more[sm.key]]
      ensures Separate(more) && Holds(more, cur[sm.key := FreshEntry(cfg, sm, ts)])
    {
      var a := new Alert(cfg, sm, ts);
      more := built[sm.key := a];
    }

    /** Building the alerts; None when two samples have the same key. */
    method Build(samples: seq<Sample>, ts: Time) returns (alerts: Option<map<Fingerprint, Alert>>)
      ensures alerts.Some? <==> Distinct(samples)
      ensures alerts.Some? ==>
                && Separate(alerts.value)
                && (forall fp :: fp in alerts.value ==> fresh(alerts.value[fp]))
                && Holds(alerts.value, Built(cfg, samples, ts))
    {
      var built: map<Fingerprint, Alert> := map[];
      for i := 0 to |samples|
        invariant Distinct(samples[..i])
        invariant Separate(built)
        invariant forall fp :: fp in built ==> fresh(built[fp])
        invariant Holds(built, Built(cfg, samples[..i], ts))
      {
        var sm := samples[i];
        BuiltKeys(cfg, samples[..i], ts);
        if sm.key in built {
          SeenBefore(samples, i);
          return None;
        }
        NotSeenBefore(samples, i);
        BuiltNext(cfg, samples, ts, i);
        built := AddAlert(built, sm, ts, Built(cfg, samples[..i], ts));
      }
      AllSamples(samples);
      alerts := Some(built);
    }

    /** The body of the merge loop for one built alert. cur names the entries held before; others
        are alerts outside the map. */
    method MergeOne(h: Fingerprint, a: Alert, ghost cur: Active, ghost others: set<Alert>)
      requires Separate(active) && Holds(active, cur)
      requires forall x :: x in others ==> forall fp :: fp in active ==> active[fp] != x
      requires forall fp :: fp in active ==> active[fp] != a
      modifies this`active, if h in active then {active[h]} else {}
      ensures Separate(active)
      ensures Holds(active, cur[h := if h in cur then MergeEntry(cfg, cur[h], old(a.Get())) else old(a.Get())])
      ensures active == old(active) || active == old(active)[h := a]
      ensures forall x :: x in others ==> x.Get() == old(x.Get())
    {
      if h in active && active[h].state != Inactive {
        active[h].Refresh(cfg, a);
      } else {
        active := active[h := a];
      }
    }

    /** The merge loop, in any order of the built alerts. */
    method Merge(alerts: map<Fingerprint, Alert>, ghost was: Active, ghost news: Active)
      requires Separate(active) && Separate(alerts) && Holds(active, was) && Holds(alerts, news)
      requires Disjoint(active, alerts)
      modifies this`active, set fp | fp in active :: active[fp]
      ensures Separate(active) && Mixed(active, old(active), alerts, {})
      ensures Holds(active, Merged(cfg, was, news))
    {
      var todo := alerts.Keys;
      ghost var cur, olds := was, active;
      MergedStart(cfg, was, news);
      while todo != {}
        invariant todo <= alerts.Keys
        invariant Separate(active) && Holds(active, cur)
        invariant Mixed(active, olds, alerts, todo)
        invariant Waiting(alerts, news, todo)
        invariant MergedSoFar(cfg, was, news, todo, cur)
        decreases todo
      {
        var h :| h in todo;
        ghost var next := MergedStep(cfg, was, news, todo, cur, h);
        MergeNext(h, alerts, cur, news, olds, todo);
        todo, cur := todo - {h}, next;
      }
      MergedDone(cfg, was, news, cur);
    }

    /** One turn of the merge loop: what it does to the object graph. */
    method MergeNext(h: Fingerprint, alerts: map<Fingerprint, Alert>, ghost cur: Active, ghost news: Active,
                     ghost olds: map<Fingerprint, Alert>, ghost todo: set<Fingerprint>)
      requires Separate(active) && Holds(active, cur) && Separate(alerts) && Disjoint(olds, alerts)
      requires h in todo && todo <= alerts.Keys && Mixed(active, olds, alerts, todo) && Waiting(alerts, news, todo)
      modifies this`active, if h in active && h in olds then {olds[h]} else {}
      ensures Separate(active) && Mixed(active, olds, alerts, todo - {h}) && Waiting(alerts, news, todo - {h})
      ensures Holds(active, cur[h := if h in cur then MergeEntry(cfg, cur[h], news[h]) else news[h]])
    {
      ghost var before := active;
      MixedApart(active, olds, alerts, todo);
      MixedHere(active, olds, alerts, todo, h);
      MergeOne(h, alerts[h], cur, set b | b in todo - {h} :: alerts[b]);
      MixedStep(before, olds, alerts, todo, h, active);
    }

    /** The body of the sweep loop for one key. */
    method SweepOne(fp: Fingerprint, present: bool, ts: Time, ghost cur: Active) returns (items: seq<Record>)
      requires Separate(active) && Holds(active, cur) && fp in active
      modifies this`active, active[fp]
      ensures Separate(active)
      ensures active == if Dropped(cur[fp], present, ts) then old(active) - {fp} else old(active)
      ensures Holds(active, if Dropped(cur[fp], present, ts) then cur - {fp}
                    else cur[fp := SweptEntry(cfg, cur[fp], present, ts)])
      ensures items == if Recorded(cfg, cur[fp], present, ts) then [RecordOf(fp, cur[fp], present, ts)] else []
    {
      var dropped;
      dropped, items := active[fp].Sweep(cfg, fp, present, ts);
      if dropped {
        active := active - {fp};
      }
    }

    /** The sweep loop: every key of the map once, in any order, deleting while iterating. */
    method Sweep(present: set<Fingerprint>, ts: Time, ghost was: Active) returns (items: seq<Record>)
      requires Separate(active) && Holds(active, was)
      modifies this`active, set fp | fp in active :: active[fp]
      ensures Separate(active)
      ensures forall fp :: fp in active ==> fp in old(active) && active[fp] == old(active)[fp]
      ensures Holds(active, Swept(cfg, was, present, ts))
      ensures multiset(items) == multiset(SweepRecords(cfg, was, present, ts))
    {
      items := [];
      var todo := active.Keys;
      ghost var cur, olds := was, active;
      RecordsStart(cfg, was, present, ts);
      while todo != {}
        invariant todo <= olds.Keys && todo <= active.Keys
        invariant Separate(active) && Holds(active, cur)
        invariant forall fp :: fp in active ==> fp in olds && active[fp] == olds[fp]
        invariant SweptSoFar(cfg, was, present, ts, todo, cur)
        invariant RecordedSoFar(cfg, was, present, ts, todo, items)
        decreases todo
      {
        var fp :| fp in todo;
        ghost var next := SweptStep(cfg, was, present, ts, todo, cur, fp);
        var added := SweepOne(fp, fp in present, ts, cur);
        RecordsNext(cfg, was, present, ts, todo, items, fp, added);
        items := items + added;
        todo, cur := todo - {fp}, next;
      }
      SweptDone(cfg, was, present, ts, cur);
      RecordsDone(cfg, was, present, ts, items);
    }

    /** Eval. query is None when the query failed. A failed evaluation changes nothing; a successful
        one leaves exactly the specified alerts and appends exactly the specified records, whatever
        order the maps are iterated in. */
    method Eval(query: Option<seq<Sample>>, ts: Time) returns (count: Option<nat>)
      requires Separate(active)
      modifies this, set fp | fp in active :: active[fp]
      ensures Separate(active)
      ensures count.Some? <==> query.Some? && Distinct(query.value)
      ensures count.None? ==>
                active == old(active) && Entries(active) == old(Entries(active)) && history == old(history)
      ensures count.Some? ==>
                && count.value == |active|
                && Evaluates(cfg, old(Entries(active)), old(history), query.value, ts, Entries(active), history)
    {
      var prevState := State();
      if query == None {
        return None;
      }
      var alerts := Build(query.value, ts);
      if alerts == None {
        return None;
      }
      Update(query.value, alerts.value, ts, prevState);
      count := Some(|active|);
    }

    /** What Eval does when the query succeeded. */
    method Update(samples: seq<Sample>, alerts: map<Fingerprint, Alert>, ts: Time, prevState: AlertState)
      requires Separate(active) && prevState == Overall(Entries(active))
      requires Separate(alerts) && Holds(alerts, Built(cfg, samples, ts)) && Disjoint(active, alerts)
      modifies this, (set fp | fp in active :: active[fp]), set fp | fp in alerts :: alerts[fp]
      ensures Separate(active)
      ensures Evaluates(cfg, old(Entries(active)), old(history), samples, ts, Entries(active), history)
    {
      var items, currentState := Advance(samples, alerts, ts);
      EvaluatesBy(cfg, old(Entries(active)), history, samples, ts, Entries(active), items, prevState, currentState);
      Hand(items, prevState, currentState);
    }

    method Advance(samples: seq<Sample>, alerts: map<Fingerprint, Alert>, ts: Time)
      returns (items: seq<Record>, currentState: AlertState)
      requires Separate(active)
      requires Separate(alerts) && Holds(alerts, Built(cfg, samples, ts)) && Disjoint(active, alerts)
      modifies this`active, (set fp | fp in active :: active[fp]), set fp | fp in alerts :: alerts[fp]
      ensures Separate(active) && currentState == Overall(Entries(active))
      ensures Steps(cfg, old(Entries(active)), samples, ts, Entries(active), items)
    {
      items := Apply(samples, alerts, ts, Entries(active));
      currentState := State();
    }

    /** Stamping the records and handing them to RecordRuleStateHistory. */
    method Hand(items: seq<Record>, prevState: AlertState, currentState: AlertState)
      modifies this`history
      ensures history == old(history) + Stamp(items, currentState, currentState != prevState)
    {
      var stamped: seq<HistoryItem> := [];
      for i := 0 to |items|
        invariant |stamped| == i
        invariant forall k: nat :: k < i ==>
                  stamped[k] == HistoryItem(items[k], currentState, currentState != prevState)
      {
        stamped := stamped + [HistoryItem(items[i], currentState, currentState != prevState)];
      }
      assert stamped == Stamp(items, currentState, currentState != prevState);
      history := history + stamped;
    }

    /** The part of Eval after the alerts are built; nothing in it can fail. */
    method Apply(samples: seq<Sample>, alerts: map<Fingerprint, Alert>, ts: Time, ghost was: Active)
      returns (items: seq<Record>)
      requires Separate(active) && Holds(active, was)
      requires Separate(alerts) && Holds(alerts, Built(cfg, samples, ts))
      requires Disjoint(active, alerts)
      modifies this`active, (set fp | fp in active :: active[fp]), set fp | fp in alerts :: alerts[fp]
      ensures Separate(active)
      ensures Steps(cfg, was, samples, ts, Entries(active), items)
    {
      ghost var news := Built(cfg, samples, ts);
      Merge(alerts, was, news);
      items := Sweep(Keys(samples), ts, Merged(cfg, was, news));
      HoldsEntries(active, Swept(cfg, Merged(cfg, was, news), Keys(samples), ts));
    }
  }

  lemma BuiltNext(cfg: Config, samples: seq<Sample>, ts: Time, i: nat)
    requires i < |samples|
    ensures Built(cfg, samples[..i + 1], ts) ==
            Built(cfg, samples[..i], ts)[samples[i].key := FreshEntry(cfg, samples[i], ts)]
  {
    assert samples[..i + 1][..i] == samples[..i];
  }

  lemma AllSamples(samples: seq<Sample>)
    ensures samples[..|samples|] == samples
  {}

  /** after is before followed by exactly these records, each once, in some order, all stamped with
      the new overall state and whether it changed. */
  ghost predicate Appends(before: seq<HistoryItem>, after: seq<HistoryItem>, records: set<Record>, prev: AlertState,
                          next: AlertState) {
    exists items :: Lists(items, records) && after == before + Stamp(items, next, next != prev)
  }

  /** items lists every record of the set once. */
  predicate Lists(items: seq<Record>, records: set<Record>) {
    multiset(items) == multiset(records)
  }

  /** A successful evaluation turns the entries was into now, and appends exactly its records to the history. */
  ghost predicate Evaluates(cfg: Config, was: Active, before: seq<HistoryItem>, samples: seq<Sample>, ts: Time,
                            now: Active, after: seq<HistoryItem>) {
    && now == EvalActive(cfg, was, samples, ts)
    && Appends(before, after, EvalRecords(cfg, was, samples, ts), Overall(was), Overall(now))
  }

  /** The entries and the records of an evaluation. */
  ghost predicate Steps(cfg: Config, was: Active, samples: seq<Sample>, ts: Time, now: Active, items: seq<Record>) {
    now == EvalActive(cfg, was, samples, ts) && Lists(items, EvalRecords(cfg, was, samples, ts))
  }

  lemma EvaluatesBy(cfg: Config, was: Active, before: seq<HistoryItem>, samples: seq<Sample>, ts: Time, now: Active,
                    items: seq<Record>, prev: AlertState, next: AlertState)
    requires Steps(cfg, was, samples, ts, now, items) && prev == Overall(was) && next == Overall(now)
    ensures Evaluates(cfg, was, before, samples, ts, now, before + Stamp(items, next, next != prev))
  {}

  /** No alert object is in both maps. */
  ghost predicate Disjoint(a: map<Fingerprint, Alert>, b: map<Fingerprint, Alert>) {
    forall x, y :: x in a && y in b ==> a[x] != b[y]
  }

  /** The built alerts not merged yet still carry what was built. */
  ghost predicate Waiting(alerts: map<Fingerprint, Alert>, news: Active, todo: set<Fingerprint>)
    reads set fp | fp in alerts :: alerts[fp]
  {
    forall fp :: fp in todo ==> fp in alerts && fp in news && alerts[fp].Get() == news[fp]
  }

  /** A key not merged yet holds an old alert, if any. */
  lemma MixedHere(active: map<Fingerprint, Alert>, olds: map<Fingerprint, Alert>, alerts: map<Fingerprint, Alert>,
                  todo: set<Fingerprint>, h: Fingerprint)
    requires Mixed(active, olds, alerts, todo) && h in todo
    ensures h in active ==> h in olds && active[h] == olds[h]
  {}

  /** During the merge: every alert of the map is an old one or a built one already merged. */
  ghost predicate Mixed(active: map<Fingerprint, Alert>, olds: map<Fingerprint, Alert>, alerts: map<Fingerprint, Alert>,
                        todo: set<Fingerprint>) {
    forall fp :: fp in active ==>
      (fp in olds && active[fp] == olds[fp]) || (fp in alerts && fp !in todo && active[fp] == alerts[fp])
  }

  lemma MixedApart(active: map<Fingerprint, Alert>, olds: map<Fingerprint, Alert>, alerts: map<Fingerprint, Alert>,
                   todo: set<Fingerprint>)
    requires Mixed(active, olds, alerts, todo) && todo <= alerts.Keys && Separate(alerts) && Disjoint(olds, alerts)
    ensures forall g, b :: g in active && b in todo ==> active[g] != alerts[b]
  {}

  lemma MixedStep(active: map<Fingerprint, Alert>, olds: map<Fingerprint, Alert>, alerts: map<Fingerprint, Alert>,
                  todo: set<Fingerprint>, h: Fingerprint, next: map<Fingerprint, Alert>)
    requires Mixed(active, olds, alerts, todo) && h in todo && h in alerts
    requires next == active || next == active[h := alerts[h]]
    ensures Mixed(next, olds, alerts, todo - {h})
  {}

  // ---------------------------------------------------------------- the loops on values

  /** The entries when the alerts of the keys left to do are not merged yet. */
  ghost predicate MergedSoFar(cfg: Config, was: Active, news: Active, todo: set<Fingerprint>, cur: Active) {
    cur == Merged(cfg, was, news - todo)
  }

  lemma MergedStart(cfg: Config, was: Active, news: Active)
    ensures MergedSoFar(cfg, was, news, news.Keys, was)
  {
    assert news - news.Keys == map[];
  }

  lemma MergedStep(cfg: Config, was: Active, news: Active, todo: set<Fingerprint>, cur: Active, h: Fingerprint)
    returns (next: Active)
    requires h in todo && todo <= news.Keys && MergedSoFar(cfg, was, news, todo, cur)
    ensures next == cur[h := if h in cur then MergeEntry(cfg, cur[h], news[h]) else news[h]]
    ensures MergedSoFar(cfg, was, news, todo - {h}, next)
  {
    next := cur[h := if h in cur then MergeEntry(cfg, cur[h], news[h]) else news[h]];
  }

  lemma MergedDone(cfg: Config, was: Active, news: Active, cur: Active)
    requires MergedSoFar(cfg, was, news, {}, cur)
    ensures cur == Merged(cfg, was, news)
  {
    assert news - {} == news;
  }

  /** The keys left to do still hold their entry, the others what the sweep leaves. */
  ghost predicate SweptSoFar(cfg: Config, was: Active, present: set<Fingerprint>, ts: Time, todo: set<Fingerprint>,
                             cur: Active) {
    && (forall fp :: fp in cur <==> fp in was && (fp in todo || !Dropped(was[fp], fp in present, ts)))
    && (forall fp :: fp in cur ==> cur[fp] == if fp in todo then was[fp]
        else SweptEntry(cfg, was[fp], fp in present, ts))
  }

  lemma SweptStep(cfg: Config, was: Active, present: set<Fingerprint>, ts: Time, todo: set<Fingerprint>, cur: Active,
                  fp: Fingerprint)
    returns (next: Active)
    requires SweptSoFar(cfg, was, present, ts, todo, cur) && fp in todo && todo <= was.Keys
    ensures fp in cur && cur[fp] == was[fp]
    ensures next == if Dropped(cur[fp], fp in present, ts) then cur - {fp}
            else cur[fp := SweptEntry(cfg, cur[fp], fp in present, ts)]
    ensures SweptSoFar(cfg, was, present, ts, todo - {fp}, next)
  {
    next := if Dropped(cur[fp], fp in present, ts) then cur - {fp}
        else cur[fp := SweptEntry(cfg, cur[fp], fp in present, ts)];
  }

  lemma SweptDone(cfg: Config, was: Active, present: set<Fingerprint>, ts: Time, cur: Active)
    requires SweptSoFar(cfg, was, present, ts, {}, cur)
    ensures cur == Swept(cfg, was, present, ts)
  {}

  /** items lists the records of the keys that are done. */
  ghost predicate RecordedSoFar(cfg: Config, was: Active, present: set<Fingerprint>, ts: Time, todo: set<Fingerprint>,
                                items: seq<Record>) {
    multiset(items) == multiset(SweepRecords(cfg, was - todo, present, ts))
  }

  lemma RecordsStart(cfg: Config, was: Active, present: set<Fingerprint>, ts: Time)
    ensures RecordedSoFar(cfg, was, present, ts, was.Keys, [])
  {
    assert was - was.Keys == map[];
  }

  lemma RecordsNext(cfg: Config, was: Active, present: set<Fingerprint>, ts: Time, todo: set<Fingerprint>,
                    items: seq<Record>, fp: Fingerprint, added: seq<Record>)
    requires fp in todo && todo <= was.Keys && RecordedSoFar(cfg, was, present, ts, todo, items)
    requires added == if Recorded(cfg, was[fp], fp in present, ts) then [RecordOf(fp, was[fp], fp in present, ts)]
             else []
    ensures RecordedSoFar(cfg, was, present, ts, todo - {fp}, items + added)
  {
    RecordsStep(cfg, was, present, ts, todo, fp);
  }

  lemma RecordsDone(cfg: Config, was: Active, present: set<Fingerprint>, ts: Time, items: seq<Record>)
    requires RecordedSoFar(cfg, was, present, ts, {}, items)
    ensures multiset(items) == multiset(SweepRecords(cfg, was, present, ts))
  {
    assert was - {} == was;
  }

  lemma RecordsStep(cfg: Config, was: Active, present: set<Fingerprint>, ts: Time, todo: set<Fingerprint>,
                    fp: Fingerprint)
    requires fp in todo && todo <= was.Keys
    ensures var added := if Recorded(cfg, was[fp], fp in present, ts)
            then [RecordOf(fp, was[fp], fp in present, ts)] else [];
            multiset(SweepRecords(cfg, was - (todo - {fp}), present, ts))
            == multiset(SweepRecords(cfg, was - todo, present, ts)) + multiset(added)
  {
    var before := SweepRecords(cfg, was - todo, present, ts);
    var after := SweepRecords(cfg, was - (todo - {fp}), present, ts);
    var r := RecordOf(fp, was[fp], fp in present, ts);
    assert r !in before;
    assert (was - (todo - {fp})).Keys == (was - todo).Keys + {fp};
    if Recorded(cfg, was[fp], fp in present, ts) {
      assert after == before + {r};
    } else {
      assert after == before;
    }
  }

  /** The objects of the map carry exactly these entries. */
  ghost predicate Holds(alerts: map<Fingerprint, Alert>, entries: Active)
    reads set fp | fp in alerts :: alerts[fp]
  {
    (forall fp :: fp in alerts <==> fp in entries) && forall fp :: fp in alerts ==> alerts[fp].Get() == entries[fp]
  }

  lemma HoldsEntries(alerts: map<Fingerprint, Alert>, entries: Active)
    requires Holds(alerts, entries)
    ensures Entries(alerts) == entries
  {}

  lemma SeenBefore(samples: seq<Sample>, i: nat)
    requires i < |samples| && Present(samples[..i], samples[i].key)
    ensures !Distinct(samples)
  {
    var j :| 0 <= j < i && samples[..i][j].key == samples[i].key;
    assert samples[j].key == samples[i].key;
  }

  lemma NotSeenBefore(samples: seq<Sample>, i: nat)
    requires i < |samples| && Distinct(samples[..i]) && !Present(samples[..i], samples[i].key)
    ensures Distinct(samples[..i + 1])
  {
    forall j | 0 <= j < i
      ensures samples[j].key != samples[i].key
    {
      assert samples[..i][j] == samples[j];
    }
    var front, all := samples[..i], samples[..i + 1];
    forall j, k | 0 <= j < k < |all|
      ensures all[j].key != all[k].key
    {
      if k < i {
        assert front[j].key != front[k].key;
      }
    }
  }
}
