/**
  spanToTreeUtil on the heap: nodes are objects that are linked by pushing them onto their parents'
  children and marked processed in place; maps are filled, iterated and deleted from. Iteration is
  over keys in any order.
 */
module SpanForest {
  import opened SpanForestModel

  class Node {
    const id: string
    const isMissing: bool
    const childReferences: seq<Ref>
    var children: seq<Node>
    var isProcessed: bool

    constructor (id: string, refs: seq<Ref>, missing: bool)
      ensures this.id == id && isMissing == missing && childReferences == refs
      ensures children == [] && !isProcessed
    {
      this.id, isMissing, childReferences := id, missing, refs;
      children, isProcessed := [], false;
    }
  }

  type NodeMap = map<string, Node>

  /** The node object n carries the value x, its children being the objects the map holds. */
  ghost predicate Carries(nodes: NodeMap, n: Node, x: NodeVal)
    reads n
  {
    && n.childReferences == x.refs && n.isMissing == x.missing && n.isProcessed == x.processed
    && |n.children| == |x.children|
    && forall i :: 0 <= i < |x.children| ==> x.children[i] in nodes && n.children[i] == nodes[x.children[i]]
  }

  /** Objects and keys correspond one to one. */
  ghost predicate Keyed(nodes: NodeMap) {
    forall v :: v in nodes ==> nodes[v].id == v
  }

  /** The objects of the map carry the values of f. */
  ghost predicate Holds(nodes: NodeMap, f: Forest)
    reads set v | v in nodes :: nodes[v]
  {
    && Keyed(nodes) && nodes.Keys == f.Keys
    && forall v :: v in nodes ==> Carries(nodes, nodes[v], f[v])
  }

  /** The first loop. */
  method Fill(spans: seq<Span>) returns (spanMap: NodeMap)
    ensures Holds(spanMap, Filled(spans))
    ensures forall v :: v in spanMap ==> fresh(spanMap[v])
  {
    spanMap := map[];
    for i := 0 to |spans|
      invariant Holds(spanMap, Filled(spans[..i]))
      invariant forall v :: v in spanMap ==> fresh(spanMap[v])
      invariant forall v :: v in spanMap ==> spanMap[v].children == []
    {
      var s := spans[i];
      var n := new Node(s.id, s.refs, false);
      ghost var f := Filled(spans[..i]);
      assert spans[..i + 1][..i] == spans[..i];
      assert Filled(spans[..i + 1]) == f[s.id := NodeVal(s.refs, false, [], false)];
      assert forall v :: v in spanMap ==> f[v].children == [];
      spanMap := spanMap[s.id := n];
    }
    assert spans[..|spans|] == spans;
  }

  /** createTraceRootSpan, without its trace ids. */
  method AddPlaceholders(nodes: NodeMap, refs: seq<Ref>, ghost f: Forest) returns (more: NodeMap)
    requires Holds(nodes, f)
    ensures Holds(more, WithPlaceholders(f, refs))
    ensures forall v :: v in nodes ==> v in more && more[v] == nodes[v]
    ensures forall v :: v in more && v !in nodes ==> fresh(more[v])
  {
    more := nodes;
    ghost var g := f;
    for i := 0 to |refs|
      invariant g == WithPlaceholders(f, refs[..i])
      invariant Holds(more, g)
      invariant forall v :: v in nodes ==> v in more && more[v] == nodes[v]
      invariant forall v :: v in more && v !in nodes ==> fresh(more[v])
    {
      assert refs[..i + 1][..i] == refs[..i];
      var p := refs[i].spanId;
      if p != "" && p !in more {
        var n := new Node(p, [], true);
        HoldsMore(more, g, p, n);
        more := more[p := n];
        g := g[p := Placeholder()];
      }
    }
    assert refs[..|refs|] == refs;
  }

  lemma HoldsMore(nodes: NodeMap, g: Forest, p: string, n: Node)
    requires Holds(nodes, g) && p !in nodes
    requires n.id == p && n.childReferences == [] && n.isMissing && n.children == [] && !n.isProcessed
    ensures Holds(nodes[p := n], g[p := Placeholder()])
  {
    forall v | v in nodes
      ensures Carries(nodes[p := n], nodes[v], g[v])
    {
      assert Carries(nodes, nodes[v], g[v]);
    }
  }

  /** Pushing the node of v onto the children of one parent. */
  method AttachOne(nodes: NodeMap, v: string, p: string, ghost f: Forest)
    requires Holds(nodes, f) && v in nodes && p in nodes
    modifies nodes[v], nodes[p]
    ensures var f1 := f[v := f[v].(processed := true)];
            Holds(nodes, f1[p := f1[p].(children := f1[p].children + [v])])
  {
    nodes[v].isProcessed := true;
    nodes[p].children := nodes[p].children + [nodes[v]];
    ghost var f1 := f[v := f[v].(processed := true)];
    ghost var f2 := f1[p := f1[p].(children := f1[p].children + [v])];
    forall w | w in nodes
      ensures Carries(nodes, nodes[w], f2[w])
    {
      assert old(Carries(nodes, nodes[w], f[w]));
      assert w != v ==> nodes[w] != nodes[v];
      assert w != p ==> nodes[w] != nodes[p];
    }
  }

  /** The forEach over the references of v. */
  method Attach(nodes: NodeMap, v: string, refs: seq<Ref>, ghost f: Forest)
    requires Holds(nodes, f) && v in nodes
    modifies set w | w in nodes :: nodes[w]
    ensures Holds(nodes, Attached(f, v, refs))
  {
    ghost var g := f;
    for i := 0 to |refs|
      invariant g == Attached(f, v, refs[..i])
      invariant Holds(nodes, g)
    {
      assert refs[..i + 1][..i] == refs[..i];
      var p := refs[i].spanId;
      if p in nodes {
        AttachOne(nodes, v, p, g);
        ghost var g1 := g[v := g[v].(processed := true)];
        g := g1[p := g1[p].(children := g1[p].children + [v])];
      }
    }
    assert refs[..|refs|] == refs;
  }

  /** The body of the linking loop for one key. */
  method LinkStep(nodes: NodeMap, v: string, ghost g: Forest) returns (more: NodeMap)
    requires Holds(nodes, g) && v in nodes
    modifies set w | w in nodes :: nodes[w]
    ensures Holds(more, LinkOne(g, v))
    ensures forall w :: w in nodes ==> w in more && more[w] == nodes[w]
    ensures forall w :: w in more && w !in nodes ==> fresh(more[w])
  {
    var refs := nodes[v].childReferences;
    WithPlaceholdersKeeps(g, refs);
    more := AddPlaceholders(nodes, refs, g);
    Attach(more, v, refs, WithPlaceholders(g, refs));
  }

  /** The trace ids of the keys visited so far. */
  ghost function TracesSoFar(f: Forest, order: seq<string>): set<string> {
    set v, t | v in order && v in f && t in TracesOf(f[v].refs) :: t
  }

  /** order lists, each once, the keys of f that are no longer in todo. */
  ghost predicate Visited(order: seq<string>, f: Forest, todo: set<string>) {
    NoRepeats(order) && todo <= f.Keys && forall v :: v in order <==> v in f && v !in todo
  }

  lemma VisitedStep(order: seq<string>, f: Forest, todo: set<string>, v: string)
    requires Visited(order, f, todo) && v in todo
    ensures Visited(order + [v], f, todo - {v})
    ensures TracesSoFar(f, order + [v]) == TracesSoFar(f, order) + TracesOf(f[v].refs)
    ensures LinkAll(f, order + [v]) == LinkOne(LinkAll(f, order), v)
  {
    assert (order + [v])[..|order|] == order;
    assert forall w :: w in order + [v] <==> w in order || w == v;
  }

  /** The linking loop over a snapshot of the entries. */
  method Link(spanMap: NodeMap, ghost f: Forest)
    returns (nodes: NodeMap, traceIds: set<string>, ghost order: seq<string>)
    requires Holds(spanMap, f)
    modifies set v | v in spanMap :: spanMap[v]
    ensures Enumerates(order, f.Keys) && Holds(nodes, LinkAll(f, order))
    ensures traceIds == TraceIds(f)
    ensures forall v :: v in nodes ==> (v in spanMap && nodes[v] == spanMap[v]) || fresh(nodes[v])
  {
    nodes, traceIds, order := spanMap, {}, [];
    var todo := spanMap.Keys;
    while todo != {}
      invariant Visited(order, f, todo)
      invariant Holds(nodes, LinkAll(f, order))
      invariant traceIds == TracesSoFar(f, order)
      invariant forall v :: v in nodes ==> (v in spanMap && nodes[v] == spanMap[v]) || fresh(nodes[v])
      decreases todo
    {
      var v :| v in todo;
      ghost var g := LinkAll(f, order);
      LinkingKeepsRefs(f, order);
      VisitedStep(order, f, todo, v);
      traceIds := AddTraces(traceIds, nodes[v].childReferences);
      nodes := LinkStep(nodes, v, g);
      todo := todo - {v};
      order := order + [v];
    }
    assert TracesSoFar(f, order) == TraceIds(f);
  }

  method AddTraces(traceIds: set<string>, refs: seq<Ref>) returns (all: set<string>)
    ensures all == traceIds + TracesOf(refs)
  {
    all := traceIds;
    for i := 0 to |refs|
      invariant all == traceIds + TracesOf(refs[..i])
    {
      assert TracesOf(refs[..i + 1]) == TracesOf(refs[..i]) + {refs[i].traceId} by {
        TracesOfMore(refs, i);
      }
      all := all + {refs[i].traceId};
    }
    assert refs[..|refs|] == refs;
  }

  lemma TracesOfMore(refs: seq<Ref>, i: nat)
    requires i < |refs|
    ensures TracesOf(refs[..i + 1]) == TracesOf(refs[..i]) + {refs[i].traceId}
  {
    var front, more := refs[..i], refs[..i + 1];
    forall t | t in TracesOf(more)
      ensures t in TracesOf(front) + {refs[i].traceId}
    {
      var j :| 0 <= j < |more| && more[j].traceId == t;
      assert j < i ==> front[j].traceId == t;
    }
    forall t | t in TracesOf(front) + {refs[i].traceId}
      ensures t in TracesOf(more)
    {
      if t == refs[i].traceId {
        assert more[i].traceId == t;
      } else {
        var j :| 0 <= j < |front| && front[j].traceId == t;
        assert more[j].traceId == t;
      }
    }
  }

  /** The deletion loop: the processed keys go, in any order. */
  method DeleteProcessed(nodes: NodeMap, ghost g: Forest) returns (rest: NodeMap)
    requires Holds(nodes, g)
    ensures rest.Keys == set v | v in g && !g[v].processed
    ensures forall v :: v in rest ==> rest[v] == nodes[v]
  {
    rest := nodes;
    var todo := nodes.Keys;
    while todo != {}
      invariant todo <= nodes.Keys
      invariant forall v :: v in rest <==> v in nodes && (v in todo || !g[v].processed)
      invariant forall v :: v in rest ==> rest[v] == nodes[v]
      decreases todo
    {
      var v :| v in todo;
      todo := todo - {v};
      assert Carries(nodes, nodes[v], g[v]);
      if nodes[v].isProcessed {
        rest := rest - {v};
      }
    }
  }

  /** ids are the ids of the listed nodes. */
  ghost predicate Listed(nodes: NodeMap, list: seq<Node>, ids: seq<string>) {
    |list| == |ids| && forall i :: 0 <= i < |ids| ==> ids[i] in nodes && list[i] == nodes[ids[i]]
  }

  /** Array.from(traceIdSet), in any order. */
  method ToList(keys: set<string>) returns (list: seq<string>)
    ensures Enumerates(list, keys)
  {
    list := [];
    var todo := keys;
    while todo != {}
      invariant todo <= keys
      invariant NoRepeats(list) && forall v :: v in list <==> v in keys && v !in todo
      decreases todo
    {
      var v :| v in todo;
      todo := todo - {v};
      list := list + [v];
    }
  }

  /** The last loop over the survivors. */
  method Place(nodes: NodeMap, survivors: seq<string>, traces: seq<string>, ghost g: Forest)
    returns (spanTree: seq<Node>, missing: seq<Node>)
    requires Holds(nodes, g) && forall v :: v in survivors ==> v in nodes
    ensures var l := PlaceAll(g, survivors, traces);
            Listed(nodes, spanTree, l.spanTree) && Listed(nodes, missing, l.missing)
  {
    spanTree, missing := [], [];
    for i := 0 to |survivors|
      invariant var l := PlaceAll(g, survivors[..i], traces);
                Listed(nodes, spanTree, l.spanTree) && Listed(nodes, missing, l.missing)
    {
      var v := survivors[i];
      assert survivors[..i + 1][..i] == survivors[..i];
      ghost var l := PlaceAll(g, survivors[..i], traces);
      assert Carries(nodes, nodes[v], g[v]);
      var isRoot := exists j :: 0 <= j < |nodes[v].childReferences| && nodes[v].childReferences[j].spanId == "";
      assert isRoot == IsRoot(g[v]);
      if isRoot {
        spanTree := spanTree + [nodes[v]];
      } else {
        for t := 0 to |traces|
          invariant var m := PlaceByTraces(l, v, traces[..t]);
                    Listed(nodes, spanTree, m.spanTree) && Listed(nodes, missing, m.missing)
        {
          assert traces[..t + 1][..t] == traces[..t];
          if Includes(traces[t], v) {
            spanTree := spanTree + [nodes[v]];
          } else {
            missing := missing + [nodes[v]];
          }
        }
        assert traces[..|traces|] == traces;
      }
    }
    assert survivors[..|survivors|] == survivors;
  }

  /** The linked objects and the two lists are a result for some visiting order of the keys. */
  ghost predicate IsTraceForest(spans: seq<Span>, nodes: NodeMap, spanTree: seq<Node>, missing: seq<Node>)
    reads set v | v in nodes :: nodes[v]
  {
    exists order, survivors, traces, g, l :: Shows(spans, nodes, spanTree, missing, order, survivors, traces, g, l)
  }

  ghost predicate Shows(spans: seq<Span>, nodes: NodeMap, spanTree: seq<Node>, missing: seq<Node>,
                        order: seq<string>, survivors: seq<string>, traces: seq<string>, g: Forest, l: Lists)
    reads set v | v in nodes :: nodes[v]
  {
    && Holds(nodes, g)
    && IsResult(spans, order, survivors, traces, g, l)
    && Listed(nodes, spanTree, l.spanTree) && Listed(nodes, missing, l.missing)
  }

  /** spanToTreeUtil. Whatever order the keys are visited in, the linked objects and the two lists
      carry a result as specified; SpanForestTheorem says what such a result contains. */
  method SpanToTree(spans: seq<Span>) returns (spanTree: seq<Node>, missing: seq<Node>, nodes: NodeMap)
    ensures IsTraceForest(spans, nodes, spanTree, missing)
  {
    var spanMap := Fill(spans);
    var traceIds;
    ghost var order;
    nodes, traceIds, order := Link(spanMap, Filled(spans));
    ghost var g := LinkAll(Filled(spans), order);
    var rest := DeleteProcessed(nodes, g);
    var survivors := ToList(rest.Keys);
    var traces := ToList(traceIds);
    spanTree, missing := Place(nodes, survivors, traces, g);
    assert Shows(spans, nodes, spanTree, missing, order, survivors, traces, g, PlaceAll(g, survivors, traces));
  }
}
