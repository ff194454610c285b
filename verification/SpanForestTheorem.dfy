/**
  For spans with unique non-empty ids and at most one CHILD_OF reference each: how often every span
  and every placeholder occurs in the resulting forest, whatever order the keys are visited in.
 */
module SpanForestTheorem {
  import opened SpanForestModel

  datatype Option<+T> = None | Some(value: T)

  predicate WellFormed(spans: seq<Span>) {
    && (forall i, j :: 0 <= i < j < |spans| ==> spans[i].id != spans[j].id)
    && (forall i :: 0 <= i < |spans| ==> spans[i].id != "" && |spans[i].refs| <= 1)
  }

  /** The filled map of well-formed spans. */
  ghost predicate Plain(f: Forest) {
    && "" !in f
    && forall v :: v in f ==> |f[v].refs| <= 1 && !f[v].missing && f[v].children == [] && !f[v].processed
  }

  lemma {:induction false} FilledIsPlain(spans: seq<Span>)
    requires WellFormed(spans)
    ensures Plain(Filled(spans))
    ensures forall i :: 0 <= i < |spans| ==>
              spans[i].id in Filled(spans) && Filled(spans)[spans[i].id].refs == spans[i].refs
    ensures forall v :: v in Filled(spans) ==> exists i :: 0 <= i < |spans| && spans[i].id == v
    decreases |spans|
  {
    if spans != [] {
      var front := spans[..|spans| - 1];
      FilledIsPlain(front);
      forall i | 0 <= i < |spans|
        ensures spans[i].id in Filled(spans) && Filled(spans)[spans[i].id].refs == spans[i].refs
      {
        if i < |front| {
          assert front[i] == spans[i];
        }
      }
      forall v | v in Filled(spans)
        ensures exists i :: 0 <= i < |spans| && spans[i].id == v
      {
        if v in Filled(front) {
          var i :| 0 <= i < |front| && front[i].id == v;
          assert spans[i].id == v;
        } else {
          assert spans[|spans| - 1].id == v;
        }
      }
    }
  }

  /** The parent a span names, if any. */
  function ParentOf(f: Forest, v: string): Option<string> {
    if v in f && |f[v].refs| == 1 && f[v].refs[0].spanId != "" then Some(f[v].refs[0].spanId) else None
  }

  /** What the linking loop has done once it has visited the keys in done: the nodes ... */
  ghost predicate LinkedNodes(f: Forest, done: seq<string>, g: Forest) {
    && f.Keys <= g.Keys && "" !in g
    && (forall v :: v in f ==> g[v].refs == f[v].refs && !g[v].missing)
    && (forall v :: v in g && v !in f ==> g[v].refs == [] && g[v].missing && Named(f, done, v))
  }

  /** ... which of them are processed ... */
  ghost predicate LinkedMarks(f: Forest, done: seq<string>, g: Forest) {
    && (forall c :: c in done && ParentOf(f, c).Some? ==> ParentOf(f, c).value in g)
    && (forall v :: v in g ==> (g[v].processed <==> v in done && ParentOf(f, v).Some?))
  }

  /** ... and their children. */
  ghost predicate LinkedChildren(f: Forest, done: seq<string>, g: Forest) {
    forall p :: p in g ==> ChildrenOf(f, done, p, g[p].children)
  }

  /** cs lists, each once, the visited spans that name p as parent. */
  ghost predicate ChildrenOf(f: Forest, done: seq<string>, p: string, cs: seq<string>) {
    NoRepeats(cs) && forall c :: c in cs <==> c in done && ParentOf(f, c) == Some(p)
  }

  ghost predicate Named(f: Forest, done: seq<string>, p: string) {
    exists c :: c in done && ParentOf(f, c) == Some(p)
  }

  ghost predicate Linked(f: Forest, done: seq<string>, g: Forest) {
    LinkedNodes(f, done, g) && LinkedMarks(f, done, g) && LinkedChildren(f, done, g)
  }

  lemma {:induction false} LinkingLinks(f: Forest, order: seq<string>)
    requires Plain(f) && NoRepeats(order) && forall v :: v in order ==> v in f
    ensures Linked(f, order, LinkAll(f, order))
    decreases |order|
  {
    if order == [] {
      assert forall p :: p in f ==> ChildrenOf(f, [], p, f[p].children);
    } else {
      var front, v := order[..|order| - 1], order[|order| - 1];
      LinkingLinks(f, front);
      assert front + [v] == order;
      LinkOneLinks(f, front, LinkAll(f, front), v);
    }
  }

  lemma {:induction false} LinkOneLinks(f: Forest, done: seq<string>, g: Forest, v: string)
    requires Plain(f) && Linked(f, done, g) && v in f && v !in done
    ensures Linked(f, done + [v], LinkOne(g, v))
  {
    var refs := g[v].refs;
    WithPlaceholdersKeeps(g, refs);
    if refs == [] {
      assert LinkOne(g, v) == g;
      LinkedMore(f, done, g, v);
    } else {
      assert refs[..0] == [];
      var p := refs[0].spanId;
      var h := WithPlaceholders(g, refs);
      assert h == if p != "" && p !in g then g[p := Placeholder()] else g;
      assert Attached(h, v, []) == h;
      if p == "" {
        assert Attached(h, v, refs) == h;
        assert LinkOne(g, v) == g;
        LinkedMore(f, done, g, v);
      } else {
        assert ParentOf(f, v) == Some(p);
        assert Attached(h, v, refs) == Attach(h, v, p);
        AttachLinks(f, done, g, v, p, h);
      }
    }
  }

  /** A span without a parent changes nothing. */
  lemma LinkedMore(f: Forest, done: seq<string>, g: Forest, v: string)
    requires Linked(f, done, g) && v in f && v !in done && ParentOf(f, v) == None
    ensures Linked(f, done + [v], g)
  {
    assert forall c :: c in done + [v] <==> c in done || c == v;
    NamedMore(f, done, g, v);
    forall p | p in g
      ensures ChildrenOf(f, done + [v], p, g[p].children)
    {
      assert ChildrenOf(f, done, p, g[p].children);
    }
  }

  lemma NamedMore(f: Forest, done: seq<string>, g: Forest, v: string)
    requires LinkedNodes(f, done, g)
    ensures forall w :: w in g && w !in f ==> Named(f, done + [v], w)
  {
    forall w | w in g && w !in f
      ensures Named(f, done + [v], w)
    {
      assert Named(f, done, w);
      var c :| c in done && ParentOf(f, c) == Some(w);
      assert c in done + [v];
    }
  }

  /** Attaching v to its parent p, which is in the map by now. */
  function Attach(h: Forest, v: string, p: string): Forest
    requires v in h && p in h
  {
    var h1 := h[v := h[v].(processed := true)];
    h1[p := h1[p].(children := h1[p].children + [v])]
  }

  lemma AttachEffect(h: Forest, v: string, p: string)
    requires v in h && p in h
    ensures var n := Attach(h, v, p);
            && n.Keys == h.Keys
            && forall w :: w in n ==>
                 && n[w].refs == h[w].refs && n[w].missing == h[w].missing
                 && n[w].processed == (w == v || h[w].processed)
                 && n[w].children == if w == p then h[w].children + [v] else h[w].children
  {}

  /** The placeholder of a parent nobody has named before. */
  lemma PlaceholderFresh(f: Forest, done: seq<string>, g: Forest, p: string)
    requires Linked(f, done, g) && p !in g
    ensures p !in f && forall c :: c in done ==> ParentOf(f, c) != Some(p)
  {}

  lemma AttachLinks(f: Forest, done: seq<string>, g: Forest, v: string, p: string, h: Forest)
    requires Linked(f, done, g) && v in f && v !in done && ParentOf(f, v) == Some(p) && p != ""
    requires h == if p !in g then g[p := Placeholder()] else g
    ensures Linked(f, done + [v], Attach(h, v, p))
  {
    AttachLinksNodes(f, done, g, v, p, h);
    AttachLinksMarks(f, done, g, v, p, h);
    AttachLinksChildren(f, done, g, v, p, h);
  }

  lemma AttachLinksNodes(f: Forest, done: seq<string>, g: Forest, v: string, p: string, h: Forest)
    requires LinkedNodes(f, done, g) && v in f && v !in done && ParentOf(f, v) == Some(p) && p != ""
    requires h == if p !in g then g[p := Placeholder()] else g
    ensures LinkedNodes(f, done + [v], Attach(h, v, p))
  {
    AttachEffect(h, v, p);
    NamedMore(f, done, g, v);
    assert v in done + [v];
    assert Named(f, done + [v], p);
  }

  lemma AttachLinksMarks(f: Forest, done: seq<string>, g: Forest, v: string, p: string, h: Forest)
    requires Linked(f, done, g) && v in f && v !in done && ParentOf(f, v) == Some(p) && p != ""
    requires h == if p !in g then g[p := Placeholder()] else g
    ensures LinkedMarks(f, done + [v], Attach(h, v, p))
  {
    AttachEffect(h, v, p);
    if p !in g {
      PlaceholderFresh(f, done, g, p);
    }
    assert forall c :: c in done + [v] <==> c in done || c == v;
    assert p !in g ==> p !in done || ParentOf(f, p) == None;
  }

  lemma AttachLinksChildren(f: Forest, done: seq<string>, g: Forest, v: string, p: string, h: Forest)
    requires Linked(f, done, g) && v in f && v !in done && ParentOf(f, v) == Some(p) && p != ""
    requires h == if p !in g then g[p := Placeholder()] else g
    ensures LinkedChildren(f, done + [v], Attach(h, v, p))
  {
    var next := Attach(h, v, p);
    AttachEffect(h, v, p);
    if p !in g {
      PlaceholderFresh(f, done, g, p);
    }
    assert forall c :: c in done + [v] <==> c in done || c == v;
    forall q | q in next
      ensures ChildrenOf(f, done + [v], q, next[q].children)
    {
      var before := if q in g then g[q].children else [];
      assert ChildrenOf(f, done, q, before);
      assert next[q].children == if q == p then before + [v] else before;
      if q == p {
        assert v !in before;
      }
    }
  }

  lemma LinkedIsComplete(f: Forest, order: seq<string>, g: Forest)
    requires Plain(f) && Enumerates(order, f.Keys) && Linked(f, order, g)
    ensures Complete(f, g)
  {
    forall p | p in g
      ensures NoRepeats(g[p].children)
      ensures forall c :: c in g[p].children <==> ParentOf(f, c) == Some(p)
    {
      assert ChildrenOf(f, order, p, g[p].children);
    }
  }

  // ---------------------------------------------------------------- ancestors

  /** The k-th ancestor of v. */
  function Up(f: Forest, v: string, k: nat): Option<string>
    decreases k
  {
    if k == 0 then Some(v)
    else
      match ParentOf(f, v)
      case None => None
      case Some(p) => Up(f, p, k - 1)
  }

  /** How many of v's first depth ancestors, v included, are c. */
  function Hits(f: Forest, v: string, c: string, depth: nat): nat
    decreases depth
  {
    if depth == 0 then 0
    else (if v == c then 1 else 0)
         + match ParentOf(f, v) { case None => 0 case Some(p) => Hits(f, p, c, depth - 1) }
  }

  function HitsAll(f: Forest, v: string, cs: seq<string>, depth: nat): nat {
    if cs == [] then 0 else Hits(f, v, cs[0], depth) + HitsAll(f, v, cs[1..], depth)
  }

  /** All keys visited: the final forest over f. */
  ghost predicate Complete(f: Forest, g: Forest) {
    && Plain(f)
    && f.Keys <= g.Keys && "" !in g
    && (forall v :: v in f ==> g[v].refs == f[v].refs)
    && (forall v :: v in g && v !in f ==> g[v].refs == [])
    && (forall c :: c in f && ParentOf(f, c).Some? ==> ParentOf(f, c).value in g)
    && (forall v :: v in g ==> (g[v].processed <==> ParentOf(f, v).Some?))
    && (forall p :: p in g ==> NoRepeats(g[p].children))
    && (forall p, c :: p in g ==> (c in g[p].children <==> ParentOf(f, c) == Some(p)))
  }

  lemma {:induction false} HitsSplits(f: Forest, v: string, cs: seq<string>, depth: nat)
    requires NoRepeats(cs)
    ensures HitsAll(f, v, cs, depth + 1) ==
            (if v in cs then 1 else 0)
            + match ParentOf(f, v) { case None => 0 case Some(p) => HitsAll(f, p, cs, depth) }
    decreases |cs|
  {
    if cs != [] {
      HitsSplits(f, v, cs[1..], depth);
      assert forall i :: 0 <= i < |cs| - 1 ==> cs[1..][i] == cs[i + 1] && cs[i + 1] != cs[0];
      assert v in cs <==> v == cs[0] || v in cs[1..];
    }
  }

  /** The children of c account for the hits of v's parent on c. */
  lemma {:induction false} HitsChildren(f: Forest, g: Forest, v: string, c: string, depth: nat)
    requires Complete(f, g) && c in g
    ensures HitsAll(f, v, g[c].children, depth) ==
            match ParentOf(f, v) { case None => 0 case Some(p) => Hits(f, p, c, depth) }
    decreases depth
  {
    if depth == 0 {
      HitsZero(f, v, g[c].children);
    } else {
      HitsSplits(f, v, g[c].children, depth - 1);
      match ParentOf(f, v)
      case None =>
      case Some(p) => HitsChildren(f, g, p, c, depth - 1);
    }
  }

  lemma {:induction false} HitsZero(f: Forest, v: string, cs: seq<string>)
    ensures HitsAll(f, v, cs, 0) == 0
    decreases |cs|
  {
    if cs != [] {
      HitsZero(f, v, cs[1..]);
    }
  }

  lemma CountCons(c: string, below: seq<string>, v: string)
    ensures multiset([c] + below)[v] == (if v == c then 1 else 0) + multiset(below)[v]
  {
    assert multiset([c] + below) == multiset([c]) + multiset(below);
  }

  /** In the subtree of c, v occurs as often as c is among its ancestors. */
  lemma {:induction false} Occurrences(f: Forest, g: Forest, c: string, depth: nat, v: string)
    requires Complete(f, g) && c in g
    ensures multiset(Flatten(g, c, depth))[v] == Hits(f, v, c, depth)
    decreases depth, 0
  {
    if depth > 0 {
      forall d | d in g[c].children
        ensures d in g
      {
        assert ParentOf(f, d) == Some(c);
      }
      var below := FlattenAll(g, g[c].children, depth - 1);
      OccurrencesAll(f, g, g[c].children, depth - 1, v);
      HitsChildren(f, g, v, c, depth - 1);
      assert Flatten(g, c, depth) == [c] + below;
      CountCons(c, below, v);
    }
  }

  lemma {:induction false} OccurrencesAll(f: Forest, g: Forest, cs: seq<string>, depth: nat, v: string)
    requires Complete(f, g) && forall d :: d in cs ==> d in g
    ensures multiset(FlattenAll(g, cs, depth))[v] == HitsAll(f, v, cs, depth)
    decreases depth, 1, |cs|
  {
    if cs != [] {
      Occurrences(f, g, cs[0], depth, v);
      OccurrencesAll(f, g, cs[1..], depth, v);
      assert multiset(Flatten(g, cs[0], depth) + FlattenAll(g, cs[1..], depth))
          == multiset(Flatten(g, cs[0], depth)) + multiset(FlattenAll(g, cs[1..], depth));
    }
  }

  // ---------------------------------------------------------------- roots

  /** r is the last element of v's chain of parents, k steps up. */
  predicate RootAt(f: Forest, v: string, k: nat, r: string) {
    Up(f, v, k) == Some(r) && ParentOf(f, r) == None
  }

  /** A chain that ends passes every parentless node at most once, at its end. */
  lemma {:induction false} HitsOfRoot(f: Forest, v: string, k: nat, r: string, c: string, depth: nat)
    requires RootAt(f, v, k, r) && k < depth && ParentOf(f, c) == None
    ensures Hits(f, v, c, depth) == if c == r then 1 else 0
    decreases k
  {
    match ParentOf(f, v)
    case None =>
      assert k == 0;
    case Some(p) =>
      assert k > 0;
      HitsOfRoot(f, p, k - 1, r, c, depth - 1);
  }

  /** A chain that never ends hits no parentless node. */
  lemma {:induction false} HitsOfCycle(f: Forest, v: string, c: string, depth: nat)
    requires ParentOf(f, c) == None && forall k: nat :: Up(f, v, k).Some?
    ensures Hits(f, v, c, depth) == 0
    decreases depth
  {
    if depth > 0 {
      assert Up(f, v, 1).Some?;
      var p := ParentOf(f, v).value;
      forall k: nat
        ensures Up(f, p, k).Some?
      {
        assert Up(f, v, k + 1) == Up(f, p, k);
      }
      HitsOfCycle(f, p, c, depth - 1);
    }
  }

  lemma {:induction false} HitsAllOfRoot(f: Forest, v: string, k: nat, r: string, cs: seq<string>, depth: nat)
    requires RootAt(f, v, k, r) && k < depth && forall c :: c in cs ==> ParentOf(f, c) == None
    ensures HitsAll(f, v, cs, depth) == multiset(cs)[r]
    decreases |cs|
  {
    if cs != [] {
      HitsOfRoot(f, v, k, r, cs[0], depth);
      HitsAllOfRoot(f, v, k, r, cs[1..], depth);
      assert cs == [cs[0]] + cs[1..];
    }
  }

  lemma {:induction false} HitsAllOfCycle(f: Forest, v: string, cs: seq<string>, depth: nat)
    requires (forall c :: c in cs ==> ParentOf(f, c) == None) && forall k: nat :: Up(f, v, k).Some?
    ensures HitsAll(f, v, cs, depth) == 0
    decreases |cs|
  {
    if cs != [] {
      HitsOfCycle(f, v, cs[0], depth);
      HitsAllOfCycle(f, v, cs[1..], depth);
    }
  }

  // ---------------------------------------------------------------- the two lists

  /** How often the last loop lists each survivor. */
  lemma {:induction false} PlacedCounts(g: Forest, survivors: seq<string>, traces: seq<string>, r: string)
    requires NoRepeats(survivors) && forall v :: v in survivors ==> v in g
    ensures var l := PlaceAll(g, survivors, traces);
            multiset(l.spanTree)[r] + multiset(l.missing)[r] ==
            if r !in survivors then 0 else if IsRoot(g[r]) then 1 else |traces|
    ensures var l := PlaceAll(g, survivors, traces);
            forall v :: v in l.spanTree || v in l.missing ==> v in survivors
    decreases |survivors|
  {
    if survivors != [] {
      var front, v := survivors[..|survivors| - 1], survivors[|survivors| - 1];
      PlacedCounts(g, front, traces, r);
      PlacedByTraces(PlaceAll(g, front, traces), v, traces, r);
      assert front + [v] == survivors;
      assert forall i :: 0 <= i < |front| ==> front[i] == survivors[i] && survivors[i] != v;
    }
  }

  lemma {:induction false} PlacedByTraces(l: Lists, v: string, traces: seq<string>, r: string)
    ensures var m := PlaceByTraces(l, v, traces);
            && multiset(m.spanTree)[r] + multiset(m.missing)[r] ==
               multiset(l.spanTree)[r] + multiset(l.missing)[r] + (if r == v then |traces| else 0)
            && (forall w :: w in m.spanTree || w in m.missing ==> w == v || w in l.spanTree || w in l.missing)
    decreases |traces|
  {
    if traces != [] {
      PlacedByTraces(l, v, traces[..|traces| - 1], r);
    }
  }

  /** With one trace id every survivor is in exactly one of the two lists, once. */
  lemma {:induction false} OneListEach(g: Forest, survivors: seq<string>, trace: string, v: string)
    requires NoRepeats(survivors) && (forall w :: w in survivors ==> w in g) && v in survivors
    ensures var l := PlaceAll(g, survivors, [trace]);
            multiset(l.spanTree)[v] + multiset(l.missing)[v] == 1 && (v in l.spanTree <==> v !in l.missing)
  {
    PlacedCounts(g, survivors, [trace], v);
    var l := PlaceAll(g, survivors, [trace]);
    assert v in l.spanTree <==> multiset(l.spanTree)[v] > 0;
    assert v in l.missing <==> multiset(l.missing)[v] > 0;
  }

  /** How often v occurs in the whole result. */
  function Total(g: Forest, l: Lists, depth: nat, v: string): nat {
    multiset(FlattenAll(g, l.spanTree, depth) + FlattenAll(g, l.missing, depth))[v]
  }

  /** Every span, and every placeholder, whose chain of parents ends in r occurs exactly as often as
      r is listed: once if r names itself a root, otherwise once per referenced trace id. A span
      whose chain of parents never ends does not occur at all. */
  lemma {:induction false} EveryNodeCounted(spans: seq<Span>, order: seq<string>, survivors: seq<string>,
                                            traces: seq<string>, g: Forest, l: Lists, v: string, depth: nat)
    requires WellFormed(spans) && IsResult(spans, order, survivors, traces, g, l) && v in g
    ensures forall k: nat, r :: RootAt(Filled(spans), v, k, r) && k < depth ==>
              r in g && Total(g, l, depth, v) == if IsRoot(g[r]) then 1 else |traces|
    ensures (forall k: nat :: Up(Filled(spans), v, k).Some?) ==> Total(g, l, depth, v) == 0
  {
    var f := Filled(spans);
    FilledIsPlain(spans);
    LinkingLinks(f, order);
    LinkedIsComplete(f, order, g);
    PlacedCounts(g, survivors, traces, v);
    forall c | c in l.spanTree || c in l.missing
      ensures c in g && ParentOf(f, c) == None
    {
      assert c in survivors;
    }
    OccurrencesAll(f, g, l.spanTree, depth, v);
    OccurrencesAll(f, g, l.missing, depth, v);
    assert Total(g, l, depth, v) == HitsAll(f, v, l.spanTree, depth) + HitsAll(f, v, l.missing, depth);
    forall k: nat, r | RootAt(f, v, k, r) && k < depth
      ensures r in g && Total(g, l, depth, v) == if IsRoot(g[r]) then 1 else |traces|
    {
      UpInForest(f, g, v, k);
      PlacedCounts(g, survivors, traces, r);
      HitsAllOfRoot(f, v, k, r, l.spanTree, depth);
      HitsAllOfRoot(f, v, k, r, l.missing, depth);
      assert r in survivors;
    }
    if forall k: nat :: Up(f, v, k).Some? {
      HitsAllOfCycle(f, v, l.spanTree, depth);
      HitsAllOfCycle(f, v, l.missing, depth);
    }
  }

  lemma {:induction false} UpInForest(f: Forest, g: Forest, v: string, k: nat)
    requires Complete(f, g) && v in g && Up(f, v, k).Some?
    ensures Up(f, v, k).value in g
    decreases k
  {
    if k > 0 {
      UpInForest(f, g, ParentOf(f, v).value, k - 1);
    }
  }

  // ---------------------------------------------------------------- acyclic references

  /** No span is its own proper ancestor. */
  ghost predicate Acyclic(f: Forest) {
    forall v, k: nat :: v in f && k > 0 ==> Up(f, v, k) != Some(v)
  }

  lemma {:induction false} UpAdds(f: Forest, v: string, a: nat, b: nat)
    requires Up(f, v, a).Some?
    ensures Up(f, v, a + b) == Up(f, Up(f, v, a).value, b)
    decreases a
  {
    if a > 0 {
      UpAdds(f, ParentOf(f, v).value, a - 1, b);
    }
  }

  lemma {:induction false} UpStops(f: Forest, v: string, a: nat, b: nat)
    requires Up(f, v, a) == None && a <= b
    ensures Up(f, v, b) == None
    decreases a
  {
    if ParentOf(f, v).Some? {
      UpStops(f, ParentOf(f, v).value, a - 1, b - 1);
    }
  }

  /** In an acyclic forest a chain of parents is shorter than the number of nodes. */
  lemma {:induction false} ChainsAreShort(f: Forest, g: Forest, v: string, k: nat)
    requires Complete(f, g) && Acyclic(f) && v in g && Up(f, v, k).Some?
    ensures k < |g.Keys|
  {
    var visited := AncestorSet(f, g, v, k);
    assert visited <= g.Keys;
    SubsetSize(visited, g.Keys);
  }

  lemma {:induction false} SubsetSize(a: set<string>, b: set<string>)
    requires a <= b
    ensures |a| <= |b|
    decreases |a|
  {
    if a != {} {
      var x :| x in a;
      SubsetSize(a - {x}, b - {x});
    }
  }

  lemma {:induction false} AncestorsDiffer(f: Forest, v: string, i: nat, k: nat)
    requires Acyclic(f) && i < k && Up(f, v, i).Some? && Up(f, v, k).Some?
    ensures Up(f, v, i) != Up(f, v, k)
  {
    var x := Up(f, v, i).value;
    UpAdds(f, v, i, k - i);
    assert Up(f, x, k - i).Some?;
    assert ParentOf(f, x).Some?;
    assert Up(f, x, k - i) != Some(x);
  }

  /** x is among the ancestors of v up to the k-th. */
  ghost predicate Within(f: Forest, v: string, k: nat, x: string) {
    exists i: nat :: i <= k && Up(f, v, i) == Some(x)
  }

  lemma WithinNext(f: Forest, v: string, k: nat, x: string)
    requires k > 0
    ensures Within(f, v, k, x) <==> Within(f, v, k - 1, x) || Up(f, v, k) == Some(x)
  {
    if Within(f, v, k, x) {
      var i: nat :| i <= k && Up(f, v, i) == Some(x);
      assert i <= k - 1 || i == k;
    }
    if Within(f, v, k - 1, x) {
      var i: nat :| i <= k - 1 && Up(f, v, i) == Some(x);
      assert i <= k;
    }
  }

  /** The first k+1 ancestors are k+1 different nodes. */
  lemma {:induction false} AncestorSet(f: Forest, g: Forest, v: string, k: nat) returns (s: set<string>)
    requires Complete(f, g) && Acyclic(f) && v in g && Up(f, v, k).Some?
    ensures |s| == k + 1 && s <= g.Keys
    ensures forall x :: x in s <==> Within(f, v, k, x)
    decreases k
  {
    if k == 0 {
      s := {v};
      forall x
        ensures x in s <==> Within(f, v, 0, x)
      {
        assert Up(f, v, 0) == Some(v);
      }
    } else {
      if Up(f, v, k - 1) == None {
        UpStops(f, v, k - 1, k);
      }
      var rest := AncestorSet(f, g, v, k - 1);
      var x := Up(f, v, k).value;
      UpInForest(f, g, v, k);
      assert x !in rest by {
        if Within(f, v, k - 1, x) {
          var i: nat :| i <= k - 1 && Up(f, v, i) == Some(x);
          AncestorsDiffer(f, v, i, k);
        }
      }
      s := rest + {x};
      assert |s| == |rest| + 1;
      forall y
        ensures y in s <==> Within(f, v, k, y)
      {
        WithinNext(f, v, k, y);
      }
    }
  }

  lemma {:induction false} AcyclicChainsEnd(f: Forest, g: Forest, v: string) returns (k: nat, r: string)
    requires Complete(f, g) && Acyclic(f) && v in g
    ensures RootAt(f, v, k, r) && k < |g.Keys|
  {
    k := 0;
    while Up(f, v, k + 1).Some?
      invariant Up(f, v, k).Some? && k < |g.Keys|
      decreases |g.Keys| - k
    {
      ChainsAreShort(f, g, v, k + 1);
      k := k + 1;
    }
    r := Up(f, v, k).value;
    UpAdds(f, v, k, 1);
    assert Up(f, r, 1) == None;
  }

  /** With acyclic references, every input span and every placeholder occurs exactly once in the
      subtrees of the two lists together, exactly when its root is explicit or there is exactly one
      referenced trace id. Depth |g| covers whole trees. */
  lemma {:induction false} ExactlyOnce(spans: seq<Span>, order: seq<string>, survivors: seq<string>,
                                       traces: seq<string>, g: Forest, l: Lists, v: string)
    requires WellFormed(spans) && Acyclic(Filled(spans)) && IsResult(spans, order, survivors, traces, g, l) && v in g
    ensures exists k: nat, r :: RootAt(Filled(spans), v, k, r) && r in g
              && (Total(g, l, |g.Keys|, v) == 1 <==> IsRoot(g[r]) || |traces| == 1)
    ensures |traces| == 1 ==> forall depth :: depth >= |g.Keys| ==> Total(g, l, depth, v) == 1
  {
    var f := Filled(spans);
    FilledIsPlain(spans);
    LinkingLinks(f, order);
    LinkedIsComplete(f, order, g);
    var k, r := AcyclicChainsEnd(f, g, v);
    EveryNodeCounted(spans, order, survivors, traces, g, l, v, |g.Keys|);
    assert RootAt(f, v, k, r);
    if |traces| == 1 {
      forall depth | depth >= |g.Keys|
        ensures Total(g, l, depth, v) == 1
      {
        EveryNodeCounted(spans, order, survivors, traces, g, l, v, depth);
        assert RootAt(f, v, k, r);
      }
    }
  }

  /** Every input span is a node of the result. */
  lemma {:induction false} SpansAreNodes(spans: seq<Span>, order: seq<string>, i: nat)
    requires WellFormed(spans) && Enumerates(order, Filled(spans).Keys) && i < |spans|
    ensures spans[i].id in LinkAll(Filled(spans), order)
  {
    FilledIsPlain(spans);
    LinkingLinks(Filled(spans), order);
  }
}
