/**
  What spanToTreeUtil computes (spanToTree.ts), on values: nodes keyed by span id with the ids of
  their children. The objects the code links are in SpanForest. Object key order is arbitrary here.
 */
module SpanForestModel {

  /** A parsed CHILD_OF reference. spanId is empty for the root of a trace. */
  datatype Ref = Ref(spanId: string, traceId: string)

  /** refs are the CHILD_OF references only; the others are carried along unread. */
  datatype Span = Span(id: string, refs: seq<Ref>)

  datatype NodeVal = NodeVal(refs: seq<Ref>, missing: bool, children: seq<string>, processed: bool)

  type Forest = map<string, NodeVal>

  /** The map after the first loop: the last span wins an id. */
  function Filled(spans: seq<Span>): Forest
    decreases |spans|
  {
    if spans == [] then map[]
    else
      var s := spans[|spans| - 1];
      Filled(spans[..|spans| - 1])[s.id := NodeVal(s.refs, false, [], false)]
  }

  function Placeholder(): NodeVal {
    NodeVal([], true, [], false)
  }

  /** createTraceRootSpan: a placeholder for every named parent that is not in the map. */
  function WithPlaceholders(f: Forest, refs: seq<Ref>): Forest
    decreases |refs|
  {
    if refs == [] then f
    else
      var g := WithPlaceholders(f, refs[..|refs| - 1]);
      var p := refs[|refs| - 1].spanId;
      if p != "" && p !in g then g[p := Placeholder()] else g
  }

  /** Pushing v onto the children of every parent that is in the map. */
  function Attached(f: Forest, v: string, refs: seq<Ref>): Forest
    requires v in f
    ensures v in Attached(f, v, refs) && f.Keys == Attached(f, v, refs).Keys
    decreases |refs|
  {
    if refs == [] then f
    else
      var g := Attached(f, v, refs[..|refs| - 1]);
      var p := refs[|refs| - 1].spanId;
      if p in g then
        var g1 := g[v := g[v].(processed := true)];
        g1[p := g1[p].(children := g1[p].children + [v])]
      else g
  }

  function LinkOne(f: Forest, v: string): Forest
    requires v in f
  {
    WithPlaceholdersKeeps(f, f[v].refs);
    Attached(WithPlaceholders(f, f[v].refs), v, f[v].refs)
  }

  /** The linking loop over a snapshot of the keys, in the given order. */
  function LinkAll(f: Forest, order: seq<string>): (g: Forest)
    requires forall v :: v in order ==> v in f
    ensures f.Keys <= g.Keys
    decreases |order|
  {
    if order == [] then f
    else
      var front := LinkAll(f, order[..|order| - 1]);
      WithPlaceholdersKeeps(front, front[order[|order| - 1]].refs);
      LinkOne(front, order[|order| - 1])
  }

  lemma {:induction false} WithPlaceholdersKeeps(f: Forest, refs: seq<Ref>)
    ensures f.Keys <= WithPlaceholders(f, refs).Keys
    ensures forall v :: v in f ==> WithPlaceholders(f, refs)[v] == f[v]
    ensures forall v :: v in WithPlaceholders(f, refs) && v !in f ==>
              WithPlaceholders(f, refs)[v] == Placeholder() && v != ""
              && exists i :: 0 <= i < |refs| && refs[i].spanId == v
    ensures forall i :: 0 <= i < |refs| && refs[i].spanId != "" ==> refs[i].spanId in WithPlaceholders(f, refs)
    decreases |refs|
  {
    if refs != [] {
      var front := refs[..|refs| - 1];
      WithPlaceholdersKeeps(f, front);
      forall v | v in WithPlaceholders(f, refs) && v !in f
        ensures exists i :: 0 <= i < |refs| && refs[i].spanId == v
      {
        if v in WithPlaceholders(f, front) {
          var i :| 0 <= i < |front| && front[i].spanId == v;
          assert refs[i].spanId == v;
        } else {
          assert refs[|refs| - 1].spanId == v;
        }
      }
      forall i | 0 <= i < |refs| && refs[i].spanId != ""
        ensures refs[i].spanId in WithPlaceholders(f, refs)
      {
        if i < |front| {
          assert front[i] == refs[i];
        }
      }
    }
  }

  function TracesOf(refs: seq<Ref>): set<string> {
    set i | 0 <= i < |refs| :: refs[i].traceId
  }

  lemma {:induction false} AttachedKeepsRefs(f: Forest, v: string, refs: seq<Ref>)
    requires v in f
    ensures forall w :: w in f ==> Attached(f, v, refs)[w].refs == f[w].refs
    decreases |refs|
  {
    if refs != [] {
      AttachedKeepsRefs(f, v, refs[..|refs| - 1]);
    }
  }

  lemma {:induction false} LinkingKeepsRefs(f: Forest, order: seq<string>)
    requires forall v :: v in order ==> v in f
    ensures forall w :: w in f ==> LinkAll(f, order)[w].refs == f[w].refs
    decreases |order|
  {
    if order != [] {
      var front := LinkAll(f, order[..|order| - 1]);
      var v := order[|order| - 1];
      LinkingKeepsRefs(f, order[..|order| - 1]);
      WithPlaceholdersKeeps(front, front[v].refs);
      AttachedKeepsRefs(WithPlaceholders(front, front[v].refs), v, front[v].refs);
    }
  }

  /** All trace ids named by a CHILD_OF reference. */
  function TraceIds(f: Forest): set<string> {
    set v, t | v in f && t in TracesOf(f[v].refs) :: t
  }

  predicate IsRoot(n: NodeVal) {
    exists i :: 0 <= i < |n.refs| && n.refs[i].spanId == ""
  }

  /** traceId.includes(spanId) */
  predicate Includes(s: string, part: string) {
    exists i :: 0 <= i <= |s| - |part| && PartAt(s, part, i)
  }

  predicate PartAt(s: string, part: string, i: nat)
    requires i + |part| <= |s|
  {
    s[i..i + |part|] == part
  }

  datatype Lists = Lists(spanTree: seq<string>, missing: seq<string>)

  /** One surviving non-root: pushed once for every trace id. */
  function PlaceByTraces(l: Lists, v: string, traces: seq<string>): Lists
    decreases |traces|
  {
    if traces == [] then l
    else
      var m := PlaceByTraces(l, v, traces[..|traces| - 1]);
      if Includes(traces[|traces| - 1], v) then m.(spanTree := m.spanTree + [v]) else m.(missing := m.missing + [v])
  }

  /** The last loop: the survivors in the given order. */
  function PlaceAll(f: Forest, survivors: seq<string>, traces: seq<string>): Lists
    requires forall v :: v in survivors ==> v in f
    decreases |survivors|
  {
    if survivors == [] then Lists([], [])
    else
      var l := PlaceAll(f, survivors[..|survivors| - 1], traces);
      var v := survivors[|survivors| - 1];
      if IsRoot(f[v]) then l.(spanTree := l.spanTree + [v]) else PlaceByTraces(l, v, traces)
  }

  predicate NoRepeats(s: seq<string>) {
    forall i, j :: 0 <= i < j < |s| ==> s[i] != s[j]
  }

  /** s lists the elements of keys, each once. */
  ghost predicate Enumerates(s: seq<string>, keys: set<string>) {
    NoRepeats(s) && forall v :: v in s <==> v in keys
  }

  /** The result of spanToTreeUtil for a given visiting order. */
  ghost predicate IsResult(spans: seq<Span>, order: seq<string>, survivors: seq<string>, traces: seq<string>, g: Forest,
                           l: Lists) {
    && Enumerates(order, Filled(spans).Keys)
    && g == LinkAll(Filled(spans), order)
    && Enumerates(survivors, set v | v in g && !g[v].processed)
    && Enumerates(traces, TraceIds(Filled(spans)))
    && l == PlaceAll(g, survivors, traces)
  }

  // ---------------------------------------------------------------- trees

  /** The ids of the subtree of c down to a depth, in preorder. */
  function Flatten(f: Forest, c: string, depth: nat): seq<string>
    decreases depth, 0
  {
    if depth == 0 || c !in f then [] else [c] + FlattenAll(f, f[c].children, depth - 1)
  }

  function FlattenAll(f: Forest, cs: seq<string>, depth: nat): seq<string>
    decreases depth, 1, |cs|
  {
    if cs == [] then [] else Flatten(f, cs[0], depth) + FlattenAll(f, cs[1..], depth)
  }
}
