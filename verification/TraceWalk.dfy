/**
  extractTraceEdges (memory/index.ts) from the JSON value on: the bounded walk that collects its objects, the
  fields it reads from them, and which edges that gives. Trimming, the conversion of other values to numbers and
  the pattern for failures are parameters. A key with dots is the list of its segments.
 */
module TraceWalk {
  import opened TraceTopology

  datatype Option<T> = None | Some(value: T)

  datatype Value =
    | Null | Bool(b: bool) | Num(n: real) | Str(s: string) | Arr(items: seq<Value>) | Obj(fields: seq<Field>)

  datatype Field = Field(key: string, value: Value)

  const MAX_DEPTH := 9
  const MAX_ITEMS := 1000
  const MAX_FIELDS := 300

  // ---------------------------------------------------------------- the walk

  function Take<T>(s: seq<T>, n: nat): (r: seq<T>)
    ensures |r| <= n && r <= s
  {
    if |s| <= n then s else s[..n]
  }

  function ValuesOf(fields: seq<Field>): (vs: seq<Value>)
    ensures |vs| == |fields| && forall i: nat :: i < |fields| ==> vs[i] == fields[i].value
  {
    seq(|fields|, i requires 0 <= i < |fields| => fields[i].value)
  }

  /** The children the walk goes on to. */
  function Children(v: Value): seq<Value> {
    match v
    case Arr(items) => Take(items, MAX_ITEMS)
    case Obj(fields) => ValuesOf(Take(fields, MAX_FIELDS))
    case _ => []
  }

  /** How much deeper the walk may go. */
  function Left(depth: nat): nat {
    if depth <= MAX_DEPTH then MAX_DEPTH + 1 - depth else 0
  }

  /** The objects the walk hands to its visitor. */
  function Found(v: Value, depth: nat): seq<Value>
    decreases Left(depth), 0, 0
  {
    if depth > MAX_DEPTH then []
    else (if v.Obj? then [v] else []) + FoundIn(Children(v), depth + 1)
  }

  function FoundIn(vs: seq<Value>, depth: nat): seq<Value>
    decreases Left(depth), 1, |vs|
  {
    if vs == [] then [] else FoundIn(vs[..|vs| - 1], depth) + Found(vs[|vs| - 1], depth)
  }

  class Walker {
    var objects: seq<Value>

    constructor ()
      ensures objects == []
    {
      objects := [];
    }

    /** walkObjects. */
    method Walk(value: Value, depth: nat)
      modifies this
      ensures objects == old(objects) + Found(value, depth)
      decreases Left(depth), 0
    {
      if depth > MAX_DEPTH {
        return;
      }
      match value
      case Arr(items) => WalkEach(Take(items, MAX_ITEMS), depth + 1);
      case Obj(fields) =>
        objects := objects + [value];
        WalkEach(ValuesOf(Take(fields, MAX_FIELDS)), depth + 1);
      case _ =>
    }

    method WalkEach(values: seq<Value>, depth: nat)
      modifies this
      ensures objects == old(objects) + FoundIn(values, depth)
      decreases Left(depth), 1
    {
      for i := 0 to |values|
        invariant objects == old(objects) + FoundIn(values[..i], depth)
      {
        assert values[..i + 1][..i] == values[..i];
        Walk(values[i], depth);
      }
      assert values[..|values|] == values;
    }
  }

  /** All objects that the walk finds in a value. */
  function Objects(v: Value): seq<Value> {
    Found(v, 0)
  }

  method CollectObjects(value: Value) returns (objects: seq<Value>)
    ensures objects == Objects(value)
  {
    var walker := new Walker();
    walker.Walk(value, 0);
    objects := walker.objects;
  }

  // ---------------------------------------------------------------- what the walk finds

  /** The positions to take from a value to one inside it. */
  type Path = seq<nat>

  function Follow(v: Value, p: Path): Option<Value>
    decreases |p|
  {
    if p == [] then Some(v)
    else if p[0] < |Children(v)| then Follow(Children(v)[p[0]], p[1..])
    else None
  }

  /** An object that few enough steps lead to. */
  predicate Reaches(v: Value, depth: nat, p: Path) {
    depth + |p| <= MAX_DEPTH && Follow(v, p).Some? && Follow(v, p).value.Obj?
  }

  /** p comes before q in document order, a value before what is inside it. */
  predicate Before(p: Path, q: Path)
    decreases |p|
  {
    q != [] && (p == [] || p[0] < q[0] || (p[0] == q[0] && Before(p[1..], q[1..])))
  }

  function Below(k: nat, paths: seq<Path>): (r: seq<Path>)
    ensures |r| == |paths| && forall i: nat :: i < |paths| ==> r[i] == [k] + paths[i]
  {
    seq(|paths|, i requires 0 <= i < |paths| => [k] + paths[i])
  }

  function Paths(v: Value, depth: nat): seq<Path>
    decreases Left(depth), 0, 0
  {
    if depth > MAX_DEPTH then []
    else (if v.Obj? then [[]] else []) + PathsIn(Children(v), depth + 1)
  }

  function PathsIn(vs: seq<Value>, depth: nat): seq<Path>
    decreases Left(depth), 1, |vs|
  {
    if vs == [] then []
    else PathsIn(vs[..|vs| - 1], depth) + Below(|vs| - 1, Paths(vs[|vs| - 1], depth))
  }

  /** A path into a list of values. */
  predicate ReachesIn(vs: seq<Value>, depth: nat, p: Path) {
    p != [] && p[0] < |vs| && Reaches(vs[p[0]], depth, p[1..])
  }

  ghost predicate Ascending(paths: seq<Path>) {
    forall i: nat, j: nat :: i < j < |paths| ==> Before(paths[i], paths[j])
  }

  /** paths are, in document order and each once, the ways to the objects found. */
  ghost predicate IsTour(v: Value, depth: nat, paths: seq<Path>, found: seq<Value>) {
    && |paths| == |found|
    && (forall i: nat :: i < |paths| ==> Reaches(v, depth, paths[i]) && Follow(v, paths[i]) == Some(found[i]))
    && Ascending(paths)
    && (forall p :: Reaches(v, depth, p) ==> p in paths)
  }

  /** What the paths of one list point at. */
  ghost predicate Points(vs: seq<Value>, depth: nat, paths: seq<Path>, found: seq<Value>) {
    && |paths| == |found|
    && forall i: nat :: i < |paths| ==>
         ReachesIn(vs, depth, paths[i]) && Follow(vs[paths[i][0]], paths[i][1..]) == Some(found[i])
  }

  ghost predicate IsTourIn(vs: seq<Value>, depth: nat, paths: seq<Path>, found: seq<Value>) {
    && Points(vs, depth, paths, found)
    && Ascending(paths)
    && (forall p :: ReachesIn(vs, depth, p) ==> p in paths)
  }

  lemma BelowPoints(vs: seq<Value>, depth: nat, k: nat, more: seq<Path>, others: seq<Value>)
    requires k < |vs| && IsTour(vs[k], depth, more, others)
    ensures Points(vs, depth, Below(k, more), others)
  {
    forall i: nat | i < |more|
      ensures ReachesIn(vs, depth, Below(k, more)[i]) && Follow(vs[k], Below(k, more)[i][1..]) == Some(others[i])
    {
      assert Below(k, more)[i][1..] == more[i];
    }
  }

  lemma FrontPoints(vs: seq<Value>, depth: nat, n: nat, paths: seq<Path>, found: seq<Value>)
    requires n <= |vs| && Points(vs[..n], depth, paths, found)
    ensures Points(vs, depth, paths, found)
  {
    forall i: nat | i < |paths|
      ensures ReachesIn(vs, depth, paths[i]) && Follow(vs[paths[i][0]], paths[i][1..]) == Some(found[i])
    {
      assert vs[..n][paths[i][0]] == vs[paths[i][0]];
    }
  }

  lemma PointsJoin(vs: seq<Value>, depth: nat, a: seq<Path>, x: seq<Value>, b: seq<Path>, y: seq<Value>)
    requires Points(vs, depth, a, x) && Points(vs, depth, b, y)
    ensures Points(vs, depth, a + b, x + y)
  {}

  lemma BelowAscends(paths: seq<Path>, n: nat, more: seq<Path>)
    requires Ascending(paths) && Ascending(more) && forall i: nat :: i < |paths| ==> paths[i] != [] && paths[i][0] < n
    ensures Ascending(paths + Below(n, more))
  {
    var all := paths + Below(n, more);
    forall i: nat, j: nat | i < j < |all| ensures Before(all[i], all[j]) {
      if i >= |paths| {
        var a, b := more[i - |paths|], more[j - |paths|];
        assert Before(a, b);
        assert all[i][1..] == a && all[j][1..] == b;
      }
    }
  }

  lemma BelowIsComplete(vs: seq<Value>, depth: nat, n: nat, paths: seq<Path>, more: seq<Path>, p: Path)
    requires n < |vs| && ReachesIn(vs[..n + 1], depth, p)
    requires ReachesIn(vs[..n], depth, p) ==> p in paths
    requires Reaches(vs[n], depth, p[1..]) ==> p[1..] in more
    ensures p in paths + Below(n, more)
  {
    if p[0] < n {
      assert vs[..n][p[0]] == vs[..n + 1][p[0]];
    } else {
      var k: nat :| k < |more| && more[k] == p[1..];
      assert Below(n, more)[k] == p;
    }
  }

  lemma BelowIsTour(vs: seq<Value>, depth: nat, paths: seq<Path>, found: seq<Value>, more: seq<Path>,
                    others: seq<Value>)
    requires vs != [] && IsTourIn(vs[..|vs| - 1], depth, paths, found) && IsTour(vs[|vs| - 1], depth, more, others)
    ensures IsTourIn(vs, depth, paths + Below(|vs| - 1, more), found + others)
  {
    var n := |vs| - 1;
    FrontPoints(vs, depth, n, paths, found);
    BelowPoints(vs, depth, n, more, others);
    PointsJoin(vs, depth, paths, found, Below(n, more), others);
    BelowAscends(paths, n, more);
    assert vs[..n + 1] == vs;
    forall p | ReachesIn(vs, depth, p) ensures p in paths + Below(n, more) {
      BelowIsComplete(vs, depth, n, paths, more, p);
    }
  }

  lemma InsideIsTour(v: Value, depth: nat, paths: seq<Path>, found: seq<Value>)
    requires depth <= MAX_DEPTH && IsTourIn(Children(v), depth + 1, paths, found)
    ensures v.Obj? ==> IsTour(v, depth, [[]] + paths, [v] + found)
    ensures !v.Obj? ==> IsTour(v, depth, paths, found)
  {
    forall p: Path | p != [] ensures Reaches(v, depth, p) <==> ReachesIn(Children(v), depth + 1, p) {
    }
  }

  lemma {:induction false} FoundInTour(vs: seq<Value>, depth: nat)
    ensures IsTourIn(vs, depth, PathsIn(vs, depth), FoundIn(vs, depth))
    decreases Left(depth), 1, |vs|
  {
    if vs != [] {
      var n := |vs| - 1;
      FoundInTour(vs[..n], depth);
      WalkIsTour(vs[n], depth);
      BelowIsTour(vs, depth, PathsIn(vs[..n], depth), FoundIn(vs[..n], depth), Paths(vs[n], depth),
                  Found(vs[n], depth));
    }
  }

  /** The walk hands over, in document order and each once, exactly the objects that at most nine steps lead to,
      through the first 1000 items of an array and the first 300 values of an object. */
  lemma {:induction false} WalkIsTour(v: Value, depth: nat)
    ensures IsTour(v, depth, Paths(v, depth), Found(v, depth))
    decreases Left(depth), 0, 0
  {
    if depth <= MAX_DEPTH {
      FoundInTour(Children(v), depth + 1);
      InsideIsTour(v, depth, PathsIn(Children(v), depth + 1), FoundIn(Children(v), depth + 1));
    }
  }

  // ---------------------------------------------------------------- reading the fields

  datatype Reader = Reader(trim: string -> string, toNumber: Value -> Option<real>, failing: string -> bool)

  const SERVICE_KEYS := [["serviceName"], ["service_name"], ["service", "name"], ["service"],
                         ["serviceId"], ["service_id"]]
  const FROM_SERVICE_KEYS := [["fromService"], ["from_service"], ["sourceService"], ["source_service"],
                              ["parentService"], ["upstream"], ["caller"], ["clientService"]]
  const TO_SERVICE_KEYS := [["toService"], ["to_service"], ["targetService"], ["target_service"], ["downstream"],
                            ["callee"], ["peerService"], ["serverService"]]
  const SPAN_KEYS := [["spanId"], ["span_id"], ["id"]]
  const PARENT_KEYS := [["parentSpanId"], ["parent_span_id"], ["parentId"], ["parent_id"]]
  const STATUS_KEYS := [["status"], ["statusCode"], ["status_code"], ["error"]]
  const RATE_KEYS := ["errorRate", "error_rate", "errorRatio", "error_ratio"]
  const SPAN_CALLS_KEYS := ["calls", "callCount", "count"]
  const CALLS_KEYS := ["calls", "callCount", "call_count", "count"]
  const ERRORS_KEYS := ["errors", "errorCount", "error_count"]

  function Lookup(fields: seq<Field>, key: string): Option<Value>
    decreases |fields|
  {
    if fields == [] then None
    else if fields[0].key == key then Some(fields[0].value)
    else Lookup(fields[1..], key)
  }

  function Property(v: Value, key: string): Option<Value> {
    if v.Obj? then Lookup(v.fields, key) else None
  }

  function Descend(v: Value, segments: seq<string>): Option<Value>
    decreases |segments|
  {
    if segments == [] then Some(v)
    else match Property(v, segments[0])
      case None => None
      case Some(child) => Descend(child, segments[1..])
  }

  /** The trimmed string under a key, or the empty string. */
  function StringUnder(record: Value, key: seq<string>, reader: Reader): string {
    match Descend(record, key)
    case Some(Str(s)) => reader.trim(s)
    case _ => ""
  }

  function StringAt(record: Value, keys: seq<seq<string>>, reader: Reader): string
    decreases |keys|
  {
    if keys == [] then ""
    else if StringUnder(record, keys[0], reader) != "" then StringUnder(record, keys[0], reader)
    else StringAt(record, keys[1..], reader)
  }

  /** The number under a key; a missing value is not one. */
  function NumberUnder(record: Value, key: string, reader: Reader): Option<real> {
    match Property(record, key)
    case None => None
    case Some(Num(x)) => Some(x)
    case Some(v) => reader.toNumber(v)
  }

  function NumberAt(record: Value, keys: seq<string>, reader: Reader): real
    decreases |keys|
  {
    if keys == [] then 0.0
    else match NumberUnder(record, keys[0], reader)
      case Some(x) => x
      case None => NumberAt(record, keys[1..], reader)
  }

  /** objectString: the first of the keys that holds a string with something in it. */
  method ObjectString(record: Value, keys: seq<seq<string>>, reader: Reader) returns (s: string)
    ensures s == StringAt(record, keys, reader)
  {
    for i := 0 to |keys|
      invariant StringAt(record, keys, reader) == StringAt(record, keys[i..], reader)
    {
      var value := Descend(record, keys[i]);
      if value.Some? && value.value.Str? && reader.trim(value.value.s) != "" {
        return reader.trim(value.value.s);
      }
    }
    return "";
  }

  /** numericValue: the first of the keys that holds a number, or 0. */
  method NumericValue(record: Value, keys: seq<string>, reader: Reader) returns (x: real)
    ensures x == NumberAt(record, keys, reader)
  {
    for i := 0 to |keys|
      invariant NumberAt(record, keys, reader) == NumberAt(record, keys[i..], reader)
    {
      var number := NumberUnder(record, keys[i], reader);
      if number.Some? {
        return number.value;
      }
    }
    return 0.0;
  }

  function SpanOf(record: Value, reader: Reader): SpanInfo {
    var rate := NumberAt(record, RATE_KEYS, reader);
    var failed := if reader.failing(StringAt(record, STATUS_KEYS, reader)) then 1.0 else 0.0;
    SpanInfo(StringAt(record, SERVICE_KEYS, reader), StringAt(record, PARENT_KEYS, reader),
             Clamp(if rate != 0.0 then rate else failed), AtLeastOne(NumberAt(record, SPAN_CALLS_KEYS, reader)))
  }

  function CallOf(record: Value, reader: Reader): CallRecord {
    CallRecord(StringAt(record, FROM_SERVICE_KEYS, reader), StringAt(record, TO_SERVICE_KEYS + SERVICE_KEYS, reader),
               NumberAt(record, ERRORS_KEYS, reader), NumberAt(record, CALLS_KEYS, reader),
                   NumberAt(record, RATE_KEYS, reader))
  }

  /** A record that has no span id or no service describes no span. */
  datatype SpanRecord = NoSpan | SpanRecord(id: string, span: SpanInfo)

  function SpanRecordOf(record: Value, reader: Reader): SpanRecord {
    var id := StringAt(record, SPAN_KEYS, reader);
    if id == "" || StringAt(record, SERVICE_KEYS, reader) == "" then NoSpan else SpanRecord(id, SpanOf(record, reader))
  }

  function SpanRecordsOf(records: seq<Value>, reader: Reader): (spans: seq<SpanRecord>)
    ensures |spans| == |records| && forall i: nat :: i < |records| ==> spans[i] == SpanRecordOf(records[i], reader)
  {
    seq(|records|, i requires 0 <= i < |records| => SpanRecordOf(records[i], reader))
  }

  /** The span map; a later record replaces an earlier one of the same id. */
  function SpanMap(records: seq<SpanRecord>): map<string, SpanInfo>
    decreases |records|
  {
    if records == [] then map[] else WithSpan(SpanMap(records[..|records| - 1]), records[|records| - 1])
  }

  function WithSpan(spans: map<string, SpanInfo>, record: SpanRecord): map<string, SpanInfo> {
    match record
    case NoSpan => spans
    case SpanRecord(id, span) => spans[id := span]
  }

  function CallsOf(records: seq<Value>, reader: Reader): (calls: seq<CallRecord>)
    ensures |calls| == |records| && forall i: nat :: i < |records| ==> calls[i] == CallOf(records[i], reader)
  {
    seq(|records|, i requires 0 <= i < |records| => CallOf(records[i], reader))
  }

  method ReadSpan(record: Value, reader: Reader) returns (span: SpanRecord)
    ensures span == SpanRecordOf(record, reader)
  {
    var spanId := ObjectString(record, SPAN_KEYS, reader);
    var service := ObjectString(record, SERVICE_KEYS, reader);
    if spanId == "" || service == "" {
      return NoSpan;
    }
    var status := ObjectString(record, STATUS_KEYS, reader);
    var errorRate := NumericValue(record, RATE_KEYS, reader);
    if errorRate == 0.0 {
      errorRate := if reader.failing(status) then 1.0 else 0.0;
    }
    var parentId := ObjectString(record, PARENT_KEYS, reader);
    var calls := NumericValue(record, SPAN_CALLS_KEYS, reader);
    span := SpanRecord(spanId, SpanInfo(service, parentId, Clamp(errorRate), AtLeastOne(calls)));
  }

  /** The first loop. */
  method CollectSpans(records: seq<Value>, reader: Reader) returns (spans: map<string, SpanInfo>)
    ensures spans == SpanMap(SpanRecordsOf(records, reader))
  {
    ghost var all := SpanRecordsOf(records, reader);
    spans := map[];
    for i := 0 to |records|
      invariant spans == SpanMap(all[..i])
    {
      assert all[..i + 1][..i] == all[..i];
      var span := ReadSpan(records[i], reader);
      if span.SpanRecord? {
        spans := spans[span.id := span.span];
      }
    }
    assert all[..|all|] == all;
  }

  /** The last loop. */
  method AddRecords(records: seq<Value>, reader: Reader, edges: map<Key, Edge>, ghost front: seq<Observation>)
    returns (edges': map<Key, Edge>)
    requires Counted(front) && edges == Folded(front)
    ensures Counted(front + RecordObservations(CallsOf(records, reader)))
    ensures edges' == Folded(front + RecordObservations(CallsOf(records, reader)))
  {
    ghost var found := CallsOf(records, reader);
    edges' := edges;
    assert front + [] == front;
    for i := 0 to |records|
      invariant Counted(front + RecordObservations(found[..i]))
      invariant edges' == Folded(front + RecordObservations(found[..i]))
    {
      RecordStep(front, found, i);
      var from := ObjectString(records[i], FROM_SERVICE_KEYS, reader);
      var to := ObjectString(records[i], TO_SERVICE_KEYS + SERVICE_KEYS, reader);
      if from != "" && to != "" {
        var errors := NumericValue(records[i], ERRORS_KEYS, reader);
        var count := NumericValue(records[i], CALLS_KEYS, reader);
        var rate := NumericValue(records[i], RATE_KEYS, reader);
        var calls := AtLeastOne(count);
        edges' := Add(edges', Observation(from, to, if rate != 0.0 then rate else errors / calls, calls));
      }
    }
    assert found[..|found|] == found;
  }

  /** The edges of the objects that the walk found. */
  ghost predicate AreEdgesOf(objects: seq<Value>, reader: Reader, edges: map<Key, Edge>) {
    IsExtraction(SpanMap(SpanRecordsOf(objects, reader)), CallsOf(objects, reader), edges)
  }

  /** Everything after the walk. */
  method EdgesOfRecords(objects: seq<Value>, reader: Reader) returns (edges: map<Key, Edge>)
    ensures AreEdgesOf(objects, reader, edges)
  {
    var spans := CollectSpans(objects, reader);
    ghost var order;
    edges, order := AddSpans(spans);
    edges := AddRecords(objects, reader, edges, SpanObservations(spans, order));
    Extracted(spans, CallsOf(objects, reader), edges, order);
  }

  lemma Extracted(spans: map<string, SpanInfo>, calls: seq<CallRecord>, edges: map<Key, Edge>, order: seq<string>)
    requires IsExtractionBy(spans, calls, edges, order)
    ensures IsExtraction(spans, calls, edges)
  {}

  /** extractTraceEdges. */
  method ExtractTraceEdges(value: Value, reader: Reader) returns (edges: map<Key, Edge>)
    ensures AreEdgesOf(Objects(value), reader, edges)
  {
    var objects := CollectObjects(value);
    edges := EdgesOfRecords(objects, reader);
  }

  // ---------------------------------------------------------------- which edges there are

  /** Record i is the one that describes the span with this id in the end: the last of that id. */
  ghost predicate Describes(records: seq<SpanRecord>, i: nat, id: string) {
    && i < |records| && IsSpan(records[i], id)
    && forall j: nat :: i < j < |records| ==> !IsSpan(records[j], id)
  }

  predicate IsSpan(record: SpanRecord, id: string) {
    record.SpanRecord? && record.id == id
  }

  lemma {:induction false} DescribedIsSpan(records: seq<SpanRecord>, i: nat, id: string)
    requires Describes(records, i, id)
    ensures id in SpanMap(records) && SpanMap(records)[id] == records[i].span
    decreases |records|
  {
    var n := |records| - 1;
    if i < n {
      assert !IsSpan(records[n], id);
      DescribedIsSpan(records[..n], i, id);
    }
  }

  lemma {:induction false} SpanIsDescribed(records: seq<SpanRecord>, id: string) returns (i: nat)
    requires id in SpanMap(records)
    ensures Describes(records, i, id)
    decreases |records|
  {
    var n := |records| - 1;
    if IsSpan(records[n], id) {
      i := n;
    } else {
      i := SpanIsDescribed(records[..n], id);
    }
  }

  lemma {:induction false} SpanObserved(spans: map<string, SpanInfo>, order: seq<string>, o: Observation)
    requires forall id :: id in order ==> id in spans
    ensures o in SpanObservations(spans, order) <==> exists id :: id in order && o in SpanObservation(spans, id)
    decreases |order|
  {
    if order != [] {
      var n := |order| - 1;
      SpanObserved(spans, order[..n], o);
      assert order == order[..n] + [order[n]];
    }
  }

  lemma {:induction false} RecordObserved(records: seq<CallRecord>, o: Observation)
    ensures o in RecordObservations(records) <==> exists r :: r in records && o in RecordObservation(r)
    decreases |records|
  {
    if records != [] {
      var n := |records| - 1;
      RecordObserved(records[..n], o);
      assert records == records[..n] + [records[n]];
    }
  }

  /** Record i describes a span below the one record j describes; the key is the pair of their services. */
  ghost predicate SpanLink(spans: seq<SpanRecord>, j: nat, i: nat, key: Key) {
    && j < |spans| && i < |spans| && spans[j].SpanRecord? && spans[i].SpanRecord?
    && Describes(spans, j, spans[i].span.parentId) && Describes(spans, i, spans[i].id)
    && key == (spans[j].span.service, spans[i].span.service)
  }

  predicate Names(call: CallRecord, key: Key) {
    key == (call.from, call.to)
  }

  /** A pair that add() does not ignore. */
  predicate UsableKey(key: Key) {
    key.0 != "" && key.1 != "" && key.0 != key.1 && |key.0| <= MAX_NAME && |key.1| <= MAX_NAME
  }

  ghost predicate Linked(spans: seq<SpanRecord>, calls: seq<CallRecord>, key: Key) {
    UsableKey(key) && ((exists j: nat, i: nat :: SpanLink(spans, j, i, key))
                       || (exists call :: call in calls && Names(call, key)))
  }

  lemma LinkGives(spans: seq<SpanRecord>, order: seq<string>, j: nat, i: nat, key: Key) returns (o: Observation)
    requires SpanLink(spans, j, i, key) && UsableKey(key)
    requires Lists(order, SpanMap(spans)) && forall id :: id in order ==> id in SpanMap(spans)
    ensures o in SpanObservations(SpanMap(spans), order) && On(o, key)
  {
    var id, m := spans[i].id, SpanMap(spans);
    DescribedIsSpan(spans, i, id);
    DescribedIsSpan(spans, j, spans[i].span.parentId);
    assert id in multiset(m.Keys);
    o := SpanObservation(m, id)[0];
    SpanObserved(m, order, o);
  }

  lemma LinkBehind(spans: seq<SpanRecord>, order: seq<string>, o: Observation) returns (j: nat, i: nat)
    requires forall id :: id in order ==> id in SpanMap(spans)
    requires o in SpanObservations(SpanMap(spans), order)
    ensures SpanLink(spans, j, i, KeyOf(o))
  {
    var m := SpanMap(spans);
    SpanObserved(m, order, o);
    var id :| id in order && o in SpanObservation(m, id);
    i := SpanIsDescribed(spans, id);
    DescribedIsSpan(spans, i, id);
    j := SpanIsDescribed(spans, m[id].parentId);
    DescribedIsSpan(spans, j, m[id].parentId);
  }

  lemma CallGives(calls: seq<CallRecord>, call: CallRecord, key: Key) returns (o: Observation)
    requires call in calls && Names(call, key) && UsableKey(key)
    ensures o in RecordObservations(calls) && On(o, key)
  {
    o := RecordObservation(call)[0];
    RecordObserved(calls, o);
  }

  lemma CallBehind(calls: seq<CallRecord>, o: Observation) returns (call: CallRecord)
    requires o in RecordObservations(calls)
    ensures call in calls && Names(call, KeyOf(o))
  {
    RecordObserved(calls, o);
    call :| call in calls && o in RecordObservation(call);
  }

  lemma IsObserved(front: seq<Observation>, back: seq<Observation>, o: Observation, key: Key)
    requires (o in front || o in back) && On(o, key)
    ensures Observed(front + back, key)
  {
    var obs := front + back;
    assert o in obs;
    var k :| 0 <= k < |obs| && obs[k] == o;
  }

  lemma LinkedIsObserved(spans: seq<SpanRecord>, calls: seq<CallRecord>, order: seq<string>, key: Key)
    requires Lists(order, SpanMap(spans)) && forall id :: id in order ==> id in SpanMap(spans)
    requires Linked(spans, calls, key)
    ensures Observed(SpanObservations(SpanMap(spans), order) + RecordObservations(calls), key)
  {
    var front, back := SpanObservations(SpanMap(spans), order), RecordObservations(calls);
    if call :| call in calls && Names(call, key) {
      var o := CallGives(calls, call, key);
      IsObserved(front, back, o, key);
    } else {
      var j: nat, i: nat :| SpanLink(spans, j, i, key);
      var o := LinkGives(spans, order, j, i, key);
      IsObserved(front, back, o, key);
    }
  }

  lemma ObservedIsLinked(spans: seq<SpanRecord>, calls: seq<CallRecord>, order: seq<string>, key: Key)
    requires forall id :: id in order ==> id in SpanMap(spans)
    requires Observed(SpanObservations(SpanMap(spans), order) + RecordObservations(calls), key)
    ensures Linked(spans, calls, key)
  {
    var front, back := SpanObservations(SpanMap(spans), order), RecordObservations(calls);
    var k :| 0 <= k < |front + back| && On((front + back)[k], key);
    var o := (front + back)[k];
    if o in front {
      var j, i := LinkBehind(spans, order, o);
    } else {
      var call := CallBehind(calls, o);
    }
  }

  /** Exactly which edges a value gives: the usable pairs of services of a span and its parent, each as the last
      object of its id describes it, and those that an object names itself. */
  lemma {:induction false} EdgeIff(value: Value, reader: Reader, edges: map<Key, Edge>, key: Key)
    requires AreEdgesOf(Objects(value), reader, edges)
    ensures key in edges <==> Linked(SpanRecordsOf(Objects(value), reader), CallsOf(Objects(value), reader), key)
  {
    LinkedIff(SpanRecordsOf(Objects(value), reader), CallsOf(Objects(value), reader), edges, key);
  }

  lemma {:induction false} LinkedIff(spans: seq<SpanRecord>, calls: seq<CallRecord>, edges: map<Key, Edge>, key: Key)
    requires IsExtraction(SpanMap(spans), calls, edges)
    ensures key in edges <==> Linked(spans, calls, key)
  {
    var order :| IsExtractionBy(SpanMap(spans), calls, edges, order);
    FoldIsWeightedMean(SpanObservations(SpanMap(spans), order) + RecordObservations(calls), key);
    if key in edges {
      ObservedIsLinked(spans, calls, order, key);
    } else if Linked(spans, calls, key) {
      LinkedIsObserved(spans, calls, order, key);
      assert false;
    }
  }
}
