/**
  Trace topology (memory/index.ts): folding observed calls into one edge per pair of services, and
  the running means kept per edge across traces. Rates and call counts are reals.
 */
module TraceTopology {

  const MAX_NAME := 160

  datatype Observation = Observation(from: string, to: string, errorRate: real, calls: real)

  datatype Edge = Edge(from: string, to: string, errorRate: real, calls: real)

  type Key = (string, string)

  function Clamp(x: real): (r: real)
    ensures 0.0 <= r <= 1.0
  {
    if x < 0.0 then 0.0 else if x > 1.0 then 1.0 else x
  }

  function AtLeastOne(x: real): (r: real)
    ensures r >= 1.0
  {
    if x < 1.0 then 1.0 else x
  }

  function KeyOf(o: Observation): Key {
    (o.from, o.to)
  }

  /** The observations add() does not ignore. */
  predicate Usable(o: Observation) {
    o.from != "" && o.to != "" && o.from != o.to && |o.from| <= MAX_NAME && |o.to| <= MAX_NAME
  }

  predicate On(o: Observation, key: Key) {
    Usable(o) && KeyOf(o) == key
  }

  function Divide(x: real, y: real): real {
    if y == 0.0 then 0.0 else x / y
  }

  function NewEdge(o: Observation): Edge {
    Edge(o.from, o.to, Clamp(o.errorRate), AtLeastOne(o.calls))
  }

  /** The rate of an edge after calls more calls at the given rate. */
  function MergedRate(rate: real, weight: real, more: real, calls: real): real {
    Divide(rate * weight + more * calls, weight + AtLeastOne(calls))
  }

  function MergeEdge(e: Edge, o: Observation): Edge {
    e.(errorRate := MergedRate(e.errorRate, e.calls, Clamp(o.errorRate), o.calls),
       calls := e.calls + AtLeastOne(o.calls))
  }

  /** add() on the map of edges. */
  function Added(edges: map<Key, Edge>, o: Observation): map<Key, Edge> {
    if !Usable(o) then edges
    else if KeyOf(o) in edges then edges[KeyOf(o) := MergeEdge(edges[KeyOf(o)], o)]
    else edges[KeyOf(o) := NewEdge(o)]
  }

  function Folded(obs: seq<Observation>): map<Key, Edge>
    decreases |obs|
  {
    if obs == [] then map[] else Added(Folded(obs[..|obs| - 1]), obs[|obs| - 1])
  }

  /** What one observation contributes to the calls of a key, or to its failed calls. */
  function Share(o: Observation, key: Key, failed: bool): real {
    if !On(o, key) then 0.0
    else if failed then Clamp(o.errorRate) * o.calls
    else o.calls
  }

  function Sum(obs: seq<Observation>, key: Key, failed: bool): real
    decreases |obs|
  {
    if obs == [] then 0.0 else Sum(obs[..|obs| - 1], key, failed) + Share(obs[|obs| - 1], key, failed)
  }

  /** Every caller of add() passes at least one call. */
  predicate Counted(obs: seq<Observation>) {
    forall i :: 0 <= i < |obs| ==> obs[i].calls >= 1.0
  }

  predicate Observed(obs: seq<Observation>, key: Key) {
    exists i :: 0 <= i < |obs| && On(obs[i], key)
  }

  /** The edge's error rate times its calls: its failed calls. */
  function Mass(e: Edge): real {
    e.errorRate * e.calls
  }

  /** e holds exactly these calls and failed calls of the key. */
  predicate Accounts(e: Edge, key: Key, calls: real, failed: real) {
    && e.from == key.0 && e.to == key.1 && e.from != e.to
    && e.calls == calls && e.calls >= 1.0 && Mass(e) == failed
    && 0.0 <= e.errorRate <= 1.0
  }

  /** The fold gives one edge per usable pair of services, never a self-loop; its calls are the sum
      of the observed calls and its error rate their call-weighted mean, within [0,1]. */
  lemma {:induction false} FoldIsWeightedMean(obs: seq<Observation>, key: Key)
    requires Counted(obs)
    ensures key in Folded(obs) <==> Observed(obs, key)
    ensures key !in Folded(obs) ==> Sum(obs, key, false) == 0.0 && Sum(obs, key, true) == 0.0
    ensures key in Folded(obs) ==> Accounts(Folded(obs)[key], key, Sum(obs, key, false), Sum(obs, key, true))
    decreases |obs|
  {
    if obs != [] {
      var n := |obs| - 1;
      var front, o := obs[..n], obs[n];
      FoldIsWeightedMean(front, key);
      ObservedNext(obs, key);
      if On(o, key) {
        if key in Folded(front) {
          MergeAccounts(Folded(front)[key], o, key, Sum(front, key, false), Sum(front, key, true));
        } else {
          assert Accounts(NewEdge(o), key, o.calls, Clamp(o.errorRate) * o.calls);
        }
      }
    }
  }

  lemma ObservedNext(obs: seq<Observation>, key: Key)
    requires obs != []
    ensures var n := |obs| - 1;
            Observed(obs, key) <==> Observed(obs[..n], key) || On(obs[n], key)
  {
    var n := |obs| - 1;
    var front := obs[..n];
    if Observed(obs, key) {
      var i :| 0 <= i < |obs| && On(obs[i], key);
      assert i < n ==> front[i] == obs[i];
    }
    if Observed(front, key) {
      var i :| 0 <= i < n && On(front[i], key);
      assert obs[i] == front[i];
    }
  }

  lemma MergeAccounts(e: Edge, o: Observation, key: Key, calls: real, failed: real)
    requires Accounts(e, key, calls, failed) && On(o, key) && o.calls >= 1.0
    ensures Accounts(MergeEdge(e, o), key, calls + o.calls, failed + Clamp(o.errorRate) * o.calls)
  {
    MeanStep(e.errorRate, e.calls, Clamp(o.errorRate), o.calls);
    assert AtLeastOne(o.calls) == o.calls;
    var mean := Divide(e.errorRate * e.calls + Clamp(o.errorRate) * o.calls, e.calls + o.calls);
    assert MergeEdge(e, o).errorRate == mean;
  }

  /** The weighted mean of two means in [0,1] is one, and carries both masses. */
  lemma MeanStep(r: real, c: real, s: real, d: real)
    requires 0.0 <= r <= 1.0 && 0.0 <= s <= 1.0 && c >= 1.0 && d >= 1.0
    ensures var mean := Divide(r * c + s * d, c + d);
            mean * (c + d) == r * c + s * d && 0.0 <= mean <= 1.0
  {
    Shrinks(r, c);
    Shrinks(s, d);
    var x, y := r * c, s * d;
    assert 0.0 <= x <= c && 0.0 <= y <= d;
    DivisionBounds(x + y, c + d);
  }

  lemma Shrinks(r: real, c: real)
    requires 0.0 <= r <= 1.0 && c >= 0.0
    ensures 0.0 <= r * c <= c
  {
    assert (1.0 - r) * c >= 0.0;
  }

  lemma DivisionBounds(mass: real, total: real)
    requires 0.0 <= mass <= total && total > 0.0
    ensures Divide(mass, total) * total == mass && 0.0 <= Divide(mass, total) <= 1.0
  {}

  lemma {:induction false} SumRemove(obs: seq<Observation>, i: nat, key: Key, failed: bool)
    requires i < |obs|
    ensures Sum(obs, key, failed) == Sum(obs[..i] + obs[i + 1..], key, failed) + Share(obs[i], key, failed)
    decreases |obs|
  {
    var n := |obs| - 1;
    var rest := obs[..i] + obs[i + 1..];
    if i == n {
      assert rest == obs[..n];
    } else {
      var front := obs[..n];
      SumRemove(front, i, key, failed);
      assert rest[..|rest| - 1] == front[..i] + front[i + 1..];
      assert rest[|rest| - 1] == obs[n];
    }
  }

  lemma RemoveOne(a: seq<Observation>, b: seq<Observation>, i: nat)
    requires multiset(a) == multiset(b) && a != [] && i < |b| && b[i] == a[|a| - 1]
    ensures multiset(a[..|a| - 1]) == multiset(b[..i] + b[i + 1..])
  {
    var last := b[i];
    assert a == a[..|a| - 1] + [last];
    assert b == b[..i] + [last] + b[i + 1..];
    assert multiset(a) == multiset(a[..|a| - 1]) + multiset{last};
    assert multiset(b) == multiset(b[..i] + b[i + 1..]) + multiset{last};
    assert multiset(a[..|a| - 1]) == multiset(a) - multiset{last};
    assert multiset(b[..i] + b[i + 1..]) == multiset(b) - multiset{last};
  }

  lemma {:induction false} SumPermutes(a: seq<Observation>, b: seq<Observation>, key: Key, failed: bool)
    requires multiset(a) == multiset(b)
    ensures Sum(a, key, failed) == Sum(b, key, failed)
    decreases |a|
  {
    if a == [] {
      assert |multiset(b)| == 0;
    } else {
      var n := |a| - 1;
      assert a == a[..n] + [a[n]];
      assert a[n] in multiset(b);
      var i :| 0 <= i < |b| && b[i] == a[n];
      var rest := b[..i] + b[i + 1..];
      RemoveOne(a, b, i);
      SumPermutes(a[..n], rest, key, failed);
      SumRemove(b, i, key, failed);
    }
  }

  /** The order of the observations does not matter. */
  lemma {:induction false} FoldOrderFree(a: seq<Observation>, b: seq<Observation>)
    requires Counted(a) && Counted(b) && multiset(a) == multiset(b)
    ensures Folded(a) == Folded(b)
  {
    var x, y := Folded(a), Folded(b);
    forall key
      ensures key in x <==> key in y
      ensures key in x ==> x[key] == y[key]
    {
      SameOnKey(a, b, key);
    }
    assert x.Keys == y.Keys;
  }

  lemma {:induction false} SameOnKey(a: seq<Observation>, b: seq<Observation>, key: Key)
    requires Counted(a) && Counted(b) && multiset(a) == multiset(b)
    ensures key in Folded(a) <==> key in Folded(b)
    ensures key in Folded(a) ==> Folded(a)[key] == Folded(b)[key]
  {
    SumPermutes(a, b, key, false);
    SumPermutes(a, b, key, true);
    KeyHasCalls(a, key);
    KeyHasCalls(b, key);
    if key in Folded(a) {
      SameAccounts(Folded(a)[key], Folded(b)[key], key, Sum(a, key, false), Sum(a, key, true));
    }
  }

  /** A pair of services is in the fold exactly if calls were observed for it. */
  lemma {:induction false} KeyHasCalls(obs: seq<Observation>, key: Key)
    requires Counted(obs)
    ensures key in Folded(obs) <==> Sum(obs, key, false) != 0.0
    ensures key in Folded(obs) ==> Accounts(Folded(obs)[key], key, Sum(obs, key, false), Sum(obs, key, true))
  {
    FoldIsWeightedMean(obs, key);
  }

  lemma SameAccounts(x: Edge, y: Edge, key: Key, calls: real, failed: real)
    requires Accounts(x, key, calls, failed) && Accounts(y, key, calls, failed)
    ensures x == y
  {
    EqualQuotients(x.errorRate, y.errorRate, calls);
  }

  lemma EqualQuotients(x: real, y: real, c: real)
    requires c >= 1.0
    ensures x * c == y * c ==> x == y
  {
    if x * c == y * c {
      assert (x * c) / c == x && (y * c) / c == y;
    }
  }

  // ---------------------------------------------------------------- extractTraceEdges

  datatype SpanInfo = SpanInfo(service: string, parentId: string, errorRate: real, calls: real)

  /** A record that names a caller and a callee itself. */
  datatype CallRecord = CallRecord(from: string, to: string, errors: real, calls: real, errorRate: real)

  /** The observation a span makes with its parent span, if that is in the trace. */
  function SpanObservation(spans: map<string, SpanInfo>, id: string): seq<Observation>
    requires id in spans
  {
    var s := spans[id];
    if s.parentId in spans then
      [Observation(spans[s.parentId].service, s.service, Clamp(s.errorRate), AtLeastOne(s.calls))]
    else []
  }

  function SpanObservations(spans: map<string, SpanInfo>, order: seq<string>): seq<Observation>
    requires forall id :: id in order ==> id in spans
    decreases |order|
  {
    if order == [] then []
    else SpanObservations(spans, order[..|order| - 1]) + SpanObservation(spans, order[|order| - 1])
  }

  function RecordObservation(r: CallRecord): seq<Observation> {
    if r.from == "" || r.to == "" then []
    else
      var calls := AtLeastOne(r.calls);
      [Observation(r.from, r.to, if r.errorRate != 0.0 then r.errorRate else r.errors / calls, calls)]
  }

  function RecordObservations(records: seq<CallRecord>): seq<Observation>
    decreases |records|
  {
    if records == [] then []
    else RecordObservations(records[..|records| - 1]) + RecordObservation(records[|records| - 1])
  }

  lemma {:induction false} FoldAppends(obs: seq<Observation>, o: Observation)
    ensures Folded(obs + [o]) == Added(Folded(obs), o)
  {
    assert (obs + [o])[..|obs|] == obs;
  }

  /** order lists the keys of the span map, each once. */
  ghost predicate Lists(order: seq<string>, spans: map<string, SpanInfo>) {
    multiset(order) == multiset(spans.Keys)
  }

  /** The edges are the fold of all observations, the spans taken in some order. */
  ghost predicate IsExtraction(spans: map<string, SpanInfo>, records: seq<CallRecord>, edges: map<Key, Edge>) {
    exists order :: IsExtractionBy(spans, records, edges, order)
  }

  ghost predicate IsExtractionBy(spans: map<string, SpanInfo>, records: seq<CallRecord>, edges: map<Key, Edge>,
                                 order: seq<string>) {
    && Lists(order, spans)
    && (forall id :: id in order ==> id in spans)
    && Counted(SpanObservations(spans, order) + RecordObservations(records))
    && edges == Folded(SpanObservations(spans, order) + RecordObservations(records))
  }

  function Without(order: seq<string>, i: nat): seq<string>
    requires i < |order|
  {
    order[..i] + order[i + 1..]
  }

  lemma WithoutNext(order: seq<string>, i: nat)
    requires i < |order| - 1
    ensures Without(order, i) == Without(order[..|order| - 1], i) + [order[|order| - 1]]
  {}

  lemma WithoutLast(order: seq<string>)
    requires order != []
    ensures Without(order, |order| - 1) == order[..|order| - 1]
  {}

  lemma WithoutOne(order: seq<string>, i: nat)
    requires i < |order|
    ensures multiset(Without(order, i)) == multiset(order) - multiset{order[i]}
    ensures forall id :: id in Without(order, i) ==> id in order
  {
    assert order == order[..i] + [order[i]] + order[i + 1..];
  }

  lemma ObservationsNext(spans: map<string, SpanInfo>, front: seq<string>, id: string)
    requires id in spans && forall k :: k in front ==> k in spans
    ensures multiset(SpanObservations(spans, front + [id])) ==
            multiset(SpanObservations(spans, front)) + multiset(SpanObservation(spans, id))
  {
    assert (front + [id])[..|front|] == front;
  }

  /** The observations of the spans, without the one at position i. */
  lemma {:induction false} ObservationsRemove(spans: map<string, SpanInfo>, order: seq<string>, i: nat,
                                              rest: seq<string>)
    requires i < |order| && rest == Without(order, i)
    requires (forall id :: id in order ==> id in spans) && (forall id :: id in rest ==> id in spans)
    ensures multiset(SpanObservations(spans, order)) ==
            multiset(SpanObservations(spans, rest)) + multiset(SpanObservation(spans, order[i]))
    decreases |order|
  {
    var n := |order| - 1;
    var front, last := order[..n], order[n];
    assert order == front + [last];
    ObservationsNext(spans, front, last);
    if i == n {
      WithoutLast(order);
    } else {
      var fewer := Without(front, i);
      WithoutNext(order, i);
      ObservationsRemove(spans, front, i, fewer);
      ObservationsNext(spans, fewer, last);
    }
  }

  lemma {:induction false} ObservationsPermute(spans: map<string, SpanInfo>, a: seq<string>, b: seq<string>)
    requires multiset(a) == multiset(b)
    requires (forall id :: id in a ==> id in spans) && (forall id :: id in b ==> id in spans)
    ensures multiset(SpanObservations(spans, a)) == multiset(SpanObservations(spans, b))
    decreases |a|
  {
    if a == [] {
      assert |multiset(b)| == 0;
    } else {
      var n := |a| - 1;
      assert a[n] in multiset(b);
      var i: nat :| i < |b| && b[i] == a[n];
      var fewer, rest := Without(a, n), Without(b, i);
      WithoutOne(a, n);
      WithoutOne(b, i);
      ObservationsRemove(spans, a, n, fewer);
      ObservationsRemove(spans, b, i, rest);
      ObservationsPermute(spans, fewer, rest);
    }
  }

  /** The order of the span map does not matter: a value has only one set of extracted edges. */
  lemma {:induction false} ExtractionIsUnique(spans: map<string, SpanInfo>, records: seq<CallRecord>, x: map<Key, Edge>,
                                              y: map<Key, Edge>)
    requires IsExtraction(spans, records, x) && IsExtraction(spans, records, y)
    ensures x == y
  {
    var a :| IsExtractionBy(spans, records, x, a);
    var b :| IsExtractionBy(spans, records, y, b);
    ObservationsPermute(spans, a, b);
    FoldOrderFree(SpanObservations(spans, a) + RecordObservations(records),
                  SpanObservations(spans, b) + RecordObservations(records));
  }

  lemma RecordStep(front: seq<Observation>, records: seq<CallRecord>, i: nat)
    requires i < |records| && Counted(front + RecordObservations(records[..i]))
    ensures var before, after := front + RecordObservations(records[..i]), front + RecordObservations(records[..i + 1]);
            var more := RecordObservation(records[i]);
            && Counted(after)
            && Folded(after) == if more == [] then Folded(before) else Added(Folded(before), more[0])
  {
    assert records[..i + 1][..i] == records[..i];
    var more := RecordObservation(records[i]);
    var before := front + RecordObservations(records[..i]);
    assert front + RecordObservations(records[..i + 1]) == before + more;
    if more == [] {
      assert before + more == before;
    } else {
      assert more == [more[0]];
      FoldAppends(before, more[0]);
    }
  }

  lemma SpanStep(spans: map<string, SpanInfo>, order: seq<string>, id: string)
    requires (forall k :: k in order ==> k in spans) && id in spans && Counted(SpanObservations(spans, order))
    ensures var before, after := SpanObservations(spans, order), SpanObservations(spans, order + [id]);
            var more := SpanObservation(spans, id);
            && Counted(after)
            && Folded(after) == if more == [] then Folded(before) else Added(Folded(before), more[0])
  {
    assert (order + [id])[..|order|] == order;
    var more := SpanObservation(spans, id);
    var before := SpanObservations(spans, order);
    if more == [] {
      assert before + more == before;
    } else {
      assert more == [more[0]];
      FoldAppends(before, more[0]);
    }
  }

  lemma VisitOne(keys: set<string>, todo: set<string>, id: string, order: seq<string>)
    requires todo <= keys && id in todo && multiset(order) == multiset(keys - todo)
    ensures multiset(order + [id]) == multiset(keys - (todo - {id}))
  {
    assert keys - (todo - {id}) == (keys - todo) + {id};
  }

  /** The first loop: every span with its parent, in any order of the map. */
  method AddSpans(spans: map<string, SpanInfo>) returns (edges: map<Key, Edge>, ghost order: seq<string>)
    ensures Lists(order, spans) && forall id :: id in order ==> id in spans
    ensures Counted(SpanObservations(spans, order))
    ensures edges == Folded(SpanObservations(spans, order))
  {
    edges, order := map[], [];
    var todo := spans.Keys;
    while todo != {}
      invariant todo <= spans.Keys
      invariant forall id :: id in order ==> id in spans
      invariant multiset(order) == multiset(spans.Keys - todo)
      invariant Counted(SpanObservations(spans, order))
      invariant edges == Folded(SpanObservations(spans, order))
      decreases todo
    {
      var id :| id in todo;
      VisitOne(spans.Keys, todo, id, order);
      todo := todo - {id};
      var s := spans[id];
      SpanStep(spans, order, id);
      order := order + [id];
      if s.parentId in spans {
        edges := Add(edges, Observation(spans[s.parentId].service, s.service, Clamp(s.errorRate), AtLeastOne(s.calls)));
      }
    }
    assert spans.Keys - {} == spans.Keys;
  }

  /** The closure add(). */
  method Add(edges: map<Key, Edge>, o: Observation) returns (more: map<Key, Edge>)
    ensures more == Added(edges, o)
  {
    more := edges;
    if o.from == "" || o.to == "" || o.from == o.to || |o.from| > MAX_NAME || |o.to| > MAX_NAME {
      return;
    }
    var key := KeyOf(o);
    if key !in edges {
      more := edges[key := NewEdge(o)];
    } else {
      var current := edges[key];
      var rate := MergedRate(current.errorRate, current.calls, Clamp(o.errorRate), o.calls);
      more := edges[key := current.(errorRate := rate, calls := current.calls + AtLeastOne(o.calls))];
    }
  }

  // ---------------------------------------------------------------- observeTopology

  /** A row of the topology table. */
  datatype Row = Row(observations: nat, errors: nat, rate: real, confidence: real, lastTrace: string, lastSeen: int)

  const NO_ROW := Row(0, 0, 0.0, 0.0, "", 0)

  /** The hash of organization, from and to is taken to be injective, so it is that triple. */
  type RowKey = (string, Key)

  function RowFor(rows: map<RowKey, Row>, k: RowKey): Row {
    if k in rows then rows[k] else NO_ROW
  }

  /** clampScore(Math.min(1, count / 10) * 100) */
  function Confidence(count: nat): real {
    var share := if count >= 10 then 1.0 else count as real / 10.0;
    (share * 100.0 + 0.5).Floor as real
  }

  /** Ten points for each observation, up to a hundred. */
  lemma ConfidenceGrows(count: nat)
    ensures Confidence(count) == if count >= 10 then 100.0 else 10.0 * count as real
  {
    assert count as real / 10.0 * 100.0 == (10 * count) as real;
    if count < 10 {
      assert ((10 * count) as real + 0.5).Floor == 10 * count;
    }
  }

  /** The mean of count rates, and one more. */
  function Cumulative(mean: real, count: nat, more: real): real {
    (mean * count as real + more) / (count + 1) as real
  }

  function NextRow(r: Row, errorRate: real, trace: string, now: int): Row {
    Row(r.observations + 1, r.errors + (if errorRate >= 0.1 then 1 else 0),
        Cumulative(r.rate, r.observations, errorRate), Confidence(r.observations + 1), trace, now)
  }

  function ObserveAll(rows: map<RowKey, Row>, org: string, trace: string, now: int, edges: seq<Edge>): map<RowKey, Row>
    decreases |edges|
  {
    if edges == [] then rows
    else
      var before := ObserveAll(rows, org, trace, now, edges[..|edges| - 1]);
      var e := edges[|edges| - 1];
      var k := (org, (e.from, e.to));
      before[k := NextRow(RowFor(before, k), e.errorRate, trace, now)]
  }

  method Upsert(row: Row, errorRate: real, trace: string, now: int) returns (next: Row)
    ensures next == NextRow(row, errorRate, trace, now)
  {
    var nextCount := row.observations + 1;
    var cumulative := Cumulative(row.rate, row.observations, errorRate);
    var errors := row.errors + if errorRate >= 0.1 then 1 else 0;
    next := Row(nextCount, errors, cumulative, Confidence(nextCount), trace, now);
  }

  class TopologyTable {
    var rows: map<RowKey, Row>

    constructor ()
      ensures rows == map[]
    {
      rows := map[];
    }

    /** observeTopology: one upsert per edge. */
    method Observe(org: string, trace: string, now: int, edges: seq<Edge>)
      modifies this
      ensures rows == ObserveAll(old(rows), org, trace, now, edges)
    {
      for i := 0 to |edges|
        invariant rows == ObserveAll(old(rows), org, trace, now, edges[..i])
      {
        assert edges[..i + 1][..i] == edges[..i];
        var edge := edges[i];
        var id := (org, (edge.from, edge.to));
        var row := Upsert(if id in rows then rows[id] else NO_ROW, edge.errorRate, trace, now);
        rows := rows[id := row];
      }
      assert edges[..|edges|] == edges;
    }
  }

  /** An observation batch: the edges of one trace in one organization. */
  datatype Trace = Trace(org: string, id: string, at: int, edges: seq<Edge>)

  function Table(traces: seq<Trace>): map<RowKey, Row>
    decreases |traces|
  {
    if traces == [] then map[]
    else
      var last := traces[|traces| - 1];
      ObserveAll(Table(traces[..|traces| - 1]), last.org, last.id, last.at, last.edges)
  }

  /** All rates observed for a row, oldest first. */
  function RatesIn(org: string, edges: seq<Edge>, k: RowKey): seq<real>
    decreases |edges|
  {
    if edges == [] then []
    else
      var e := edges[|edges| - 1];
      RatesIn(org, edges[..|edges| - 1], k) + (if k == (org, (e.from, e.to)) then [e.errorRate] else [])
  }

  function Rates(traces: seq<Trace>, k: RowKey): seq<real>
    decreases |traces|
  {
    if traces == [] then []
    else Rates(traces[..|traces| - 1], k) + RatesIn(traces[|traces| - 1].org, traces[|traces| - 1].edges, k)
  }

  function Total(rates: seq<real>): real
    decreases |rates|
  {
    if rates == [] then 0.0 else Total(rates[..|rates| - 1]) + rates[|rates| - 1]
  }

  function Failures(rates: seq<real>): nat
    decreases |rates|
  {
    if rates == [] then 0 else Failures(rates[..|rates| - 1]) + (if rates[|rates| - 1] >= 0.1 then 1 else 0)
  }

  /** The row summarizes these rates: their number, their mean, how many reach 0.1, and the confidence in them. */
  predicate Summarizes(r: Row, rates: seq<real>) {
    && r.observations == |rates|
    && r.rate * |rates| as real == Total(rates)
    && r.errors == Failures(rates) <= r.observations
    && r.confidence == (if |rates| >= 10 then 100.0 else 10.0 * |rates| as real)
  }

  lemma {:induction false} ObserveSummarizes(rows: map<RowKey, Row>, t: Trace, k: RowKey, earlier: seq<real>)
    requires Summarizes(RowFor(rows, k), earlier) && (k in rows <==> earlier != [])
    ensures var all := earlier + RatesIn(t.org, t.edges, k);
            var after := ObserveAll(rows, t.org, t.id, t.at, t.edges);
            Summarizes(RowFor(after, k), all) && (k in after <==> all != [])
    decreases |t.edges|
  {
    var all := earlier + RatesIn(t.org, t.edges, k);
    if t.edges == [] {
      assert all == earlier;
    } else {
      var n := |t.edges| - 1;
      var e := t.edges[n];
      ObserveSummarizes(rows, t.(edges := t.edges[..n]), k, earlier);
      var before := earlier + RatesIn(t.org, t.edges[..n], k);
      if k == (t.org, (e.from, e.to)) {
        assert all == before + [e.errorRate];
        NextSummarizes(RowFor(ObserveAll(rows, t.org, t.id, t.at, t.edges[..n]), k), before, e.errorRate, t.id, t.at);
      } else {
        assert all == before;
      }
    }
  }

  lemma {:induction false} NextSummarizes(r: Row, rates: seq<real>, rate: real, trace: string, now: int)
    requires Summarizes(r, rates)
    ensures Summarizes(NextRow(r, rate, trace, now), rates + [rate])
  {
    assert (rates + [rate])[..|rates|] == rates;
    var n := (r.observations + 1) as real;
    assert (r.rate * r.observations as real + rate) / n * n == r.rate * r.observations as real + rate;
    ConfidenceGrows(r.observations + 1);
  }

  /** After any sequence of traces, a row holds exactly the number, mean and failure count of all
      rates ever observed for it; incremental and batch computation agree. */
  lemma {:induction false} TableIsBatchMean(traces: seq<Trace>, k: RowKey)
    ensures k in Table(traces) <==> Rates(traces, k) != []
    ensures Summarizes(RowFor(Table(traces), k), Rates(traces, k))
    decreases |traces|
  {
    if traces != [] {
      var n := |traces| - 1;
      TableIsBatchMean(traces[..n], k);
      ObserveSummarizes(Table(traces[..n]), traces[n], k, Rates(traces[..n], k));
    }
  }

  lemma {:induction false} ObserveMarks(rows: map<RowKey, Row>, t: Trace, k: RowKey)
    ensures var after := ObserveAll(rows, t.org, t.id, t.at, t.edges);
            if RatesIn(t.org, t.edges, k) == [] then RowFor(after, k) == RowFor(rows, k)
            else RowFor(after, k).lastTrace == t.id && RowFor(after, k).lastSeen == t.at
    decreases |t.edges|
  {
    if t.edges != [] {
      ObserveMarks(rows, t.(edges := t.edges[..|t.edges| - 1]), k);
    }
  }

  /** A row names the last trace in which its edge was observed, and when. */
  lemma {:induction false} TableNamesLastTrace(traces: seq<Trace>, k: RowKey, n: nat)
    requires n < |traces| && RatesIn(traces[n].org, traces[n].edges, k) != []
    requires forall i: nat :: n < i < |traces| ==> RatesIn(traces[i].org, traces[i].edges, k) == []
    ensures RowFor(Table(traces), k).lastTrace == traces[n].id && RowFor(Table(traces), k).lastSeen == traces[n].at
    decreases |traces|
  {
    var m := |traces| - 1;
    ObserveMarks(Table(traces[..m]), traces[m], k);
    if n < m {
      TableNamesLastTrace(traces[..m], k, n);
    }
  }
}
