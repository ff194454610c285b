/**
  Inputs on which spans occur twice, or not at all, in the result of spanToTreeUtil, whatever order the keys
  are visited in.
 */
module SpanForestExamples {
  import opened SpanForestModel
  import opened SpanForestTheorem

  /** A span below a parent that is missing, and a root span of another trace. */
  const TWO_TRACES := [Span("a", [Ref("m", "t1")]), Span("b", [Ref("", "t2")])]

  /** A span with no reference at all. */
  const NO_TRACE := [Span("a", [])]

  /** Two spans that name each other as parent. */
  const CYCLE := [Span("a", [Ref("b", "t")]), Span("b", [Ref("a", "t")])]

  lemma FilledOne(s: Span)
    ensures Filled([s]) == map[s.id := NodeVal(s.refs, false, [], false)]
  {
    assert [s][..0] == [];
  }

  lemma FilledTwo(s: Span, t: Span)
    requires s.id != t.id
    ensures Filled([s, t]) == map[s.id := NodeVal(s.refs, false, [], false), t.id := NodeVal(t.refs, false, [], false)]
  {
    FilledOne(s);
    assert [s, t][..1] == [s];
  }

  lemma Completed(spans: seq<Span>, order: seq<string>, survivors: seq<string>, traces: seq<string>, g: Forest,
                  l: Lists)
    requires WellFormed(spans) && IsResult(spans, order, survivors, traces, g, l)
    ensures Complete(Filled(spans), g)
  {
    FilledIsPlain(spans);
    LinkingLinks(Filled(spans), order);
    LinkedIsComplete(Filled(spans), order, g);
  }

  lemma {:induction false} NoRepeatsSize(s: seq<string>)
    requires NoRepeats(s)
    ensures |set x | x in s| == |s|
    decreases |s|
  {
    if s == [] {
      assert (set x | x in s) == {};
    } else {
      var n := |s| - 1;
      NoRepeatsSize(s[..n]);
      assert s == s[..n] + [s[n]];
      assert (set x | x in s) == (set x | x in s[..n]) + {s[n]};
    }
  }

  lemma TwoEnumerated(s: seq<string>, x: string, y: string)
    requires x != y && Enumerates(s, {x, y})
    ensures |s| == 2
  {
    NoRepeatsSize(s);
    assert (set v | v in s) == {x, y};
  }

  lemma TwoTracesFilled()
    ensures var f := Filled(TWO_TRACES);
            && WellFormed(TWO_TRACES) && "a" in f && "m" !in f
            && RootAt(f, "a", 1, "m") && RootAt(f, "m", 0, "m")
            && TraceIds(f) == {"t1", "t2"}
  {
    var f := Filled(TWO_TRACES);
    FilledTwo(TWO_TRACES[0], TWO_TRACES[1]);
    assert ParentOf(f, "a") == Some("m") && ParentOf(f, "m") == None;
    assert Up(f, "m", 0) == Some("m");
    OneTrace(f["a"].refs[0]);
    OneTrace(f["b"].refs[0]);
    assert TracesOf(f["a"].refs) == {"t1"} && TracesOf(f["b"].refs) == {"t2"};
  }

  lemma OneTrace(r: Ref)
    ensures TracesOf([r]) == {r.traceId}
  {
    assert [r][0] == r;
  }

  /** A node whose chain of parents ends in a missing parent occurs as often as there are trace ids. */
  lemma BelowMissing(spans: seq<Span>, order: seq<string>, survivors: seq<string>, traces: seq<string>, g: Forest,
                     l: Lists, v: string, k: nat, m: string, depth: nat)
    requires WellFormed(spans) && IsResult(spans, order, survivors, traces, g, l) && v in g
    requires RootAt(Filled(spans), v, k, m) && k < depth && m !in Filled(spans)
    ensures m in g && Total(g, l, depth, v) == |traces|
  {
    Completed(spans, order, survivors, traces, g, l);
    EveryNodeCounted(spans, order, survivors, traces, g, l, v, depth);
  }

  /** With two trace ids a span below a missing parent occurs twice, and so does the placeholder. */
  lemma {:induction false} TwoTracesOccurTwice(order: seq<string>, survivors: seq<string>, traces: seq<string>,
                                               g: Forest, l: Lists, depth: nat)
    requires IsResult(TWO_TRACES, order, survivors, traces, g, l) && depth >= 2
    ensures "a" in g && Total(g, l, depth, "a") == 2
    ensures "m" in g && Total(g, l, depth, "m") == 2
  {
    TwoTracesFilled();
    Completed(TWO_TRACES, order, survivors, traces, g, l);
    TwoEnumerated(traces, "t1", "t2");
    BelowMissing(TWO_TRACES, order, survivors, traces, g, l, "a", 1, "m", depth);
    BelowMissing(TWO_TRACES, order, survivors, traces, g, l, "m", 0, "m", depth);
  }

  /** A span without references is in neither list. */
  lemma {:induction false} NoTraceVanishes(order: seq<string>, survivors: seq<string>, traces: seq<string>, g: Forest,
                                           l: Lists, depth: nat)
    requires IsResult(NO_TRACE, order, survivors, traces, g, l) && depth >= 1
    ensures "a" in g && Total(g, l, depth, "a") == 0
  {
    var f := Filled(NO_TRACE);
    FilledOne(NO_TRACE[0]);
    Completed(NO_TRACE, order, survivors, traces, g, l);
    assert TracesOf(f["a"].refs) == {};
    assert TraceIds(f) == {};
    assert forall k: nat :: k < |traces| ==> traces[k] in traces;
    EveryNodeCounted(NO_TRACE, order, survivors, traces, g, l, "a", depth);
    assert RootAt(f, "a", 0, "a");
  }

  lemma {:induction false} CycleNeverEnds(f: Forest, v: string, w: string, k: nat)
    requires ParentOf(f, v) == Some(w) && ParentOf(f, w) == Some(v)
    ensures Up(f, v, k).Some?
    decreases k
  {
    if k > 0 {
      CycleNeverEnds(f, w, v, k - 1);
    }
  }

  /** Spans on a cycle of references are in neither list. */
  lemma {:induction false} CycleVanishes(order: seq<string>, survivors: seq<string>, traces: seq<string>, g: Forest,
                                         l: Lists, depth: nat)
    requires IsResult(CYCLE, order, survivors, traces, g, l)
    ensures "a" in g && "b" in g && Total(g, l, depth, "a") == 0 && Total(g, l, depth, "b") == 0
  {
    var f := Filled(CYCLE);
    FilledTwo(CYCLE[0], CYCLE[1]);
    Completed(CYCLE, order, survivors, traces, g, l);
    forall k: nat ensures Up(f, "a", k).Some? && Up(f, "b", k).Some? {
      CycleNeverEnds(f, "a", "b", k);
      CycleNeverEnds(f, "b", "a", k);
    }
    EveryNodeCounted(CYCLE, order, survivors, traces, g, l, "a", depth);
    EveryNodeCounted(CYCLE, order, survivors, traces, g, l, "b", depth);
  }
}
