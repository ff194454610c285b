/**
  What the bounded search returns: simple anomalous paths from the symptom that cannot be extended
  or have full length; and, when no path of fewer than six services has more than three ways on, the
  heaviest of all such paths.
 */
module TracePathsTheorem {
  import opened TraceTopology
  import opened TracePaths

  // ---------------------------------------------------------------- paths as edge sequences

  function Last(symptom: string, es: seq<Edge>): string {
    if es == [] then symptom else es[|es| - 1].to
  }

  /** The services a sequence of edges visits, starting at the symptom. */
  function Visits(symptom: string, es: seq<Edge>): seq<string>
    decreases |es|
  {
    if es == [] then [symptom] else Visits(symptom, es[..|es| - 1]) + [es[|es| - 1].to]
  }

  function WeightOf(log1p: Log1p, es: seq<Edge>): real
    decreases |es|
  {
    if es == [] then 0.0 else WeightOf(log1p, es[..|es| - 1]) + EdgeWeight(log1p, es[|es| - 1])
  }

  /** es is a simple path of anomalous edges from the symptom, of at most six services. */
  ghost predicate IsSimplePath(edges: seq<Edge>, symptom: string, es: seq<Edge>)
    decreases |es|
  {
    && |es| < MAX_PATH
    && (es != [] ==>
          var n := |es| - 1;
          && IsSimplePath(edges, symptom, es[..n])
          && es[n] in edges && Anomalous(es[n]) && es[n].from == Last(symptom, es[..n])
          && es[n].to !in Visits(symptom, es[..n]))
  }

  /** No anomalous edge leads from the end of the path to a service outside it. */
  ghost predicate Stuck(edges: seq<Edge>, symptom: string, es: seq<Edge>) {
    forall e :: e in edges && Anomalous(e) && e.from == Last(symptom, es) ==> e.to in Visits(symptom, es)
  }

  /** A path the search may report: it has an edge, and is stuck or of full length. */
  ghost predicate IsReportable(edges: seq<Edge>, symptom: string, es: seq<Edge>) {
    IsSimplePath(edges, symptom, es) && es != [] && (|es| == MAX_PATH - 1 || Stuck(edges, symptom, es))
  }

  function AsFound(log1p: Log1p, symptom: string, es: seq<Edge>): Found {
    Ranked(Visits(symptom, es), WeightOf(log1p, es))
  }

  lemma {:induction false} VisitsLength(symptom: string, es: seq<Edge>)
    ensures |Visits(symptom, es)| == |es| + 1
    decreases |es|
  {
    if es != [] {
      VisitsLength(symptom, es[..|es| - 1]);
    }
  }

  /** A simple path visits no service twice. */
  lemma {:induction false} VisitsOnce(edges: seq<Edge>, symptom: string, es: seq<Edge>)
    requires IsSimplePath(edges, symptom, es)
    ensures var p := Visits(symptom, es);
            && p[0] == symptom
            && (forall i, j :: 0 <= i < j < |p| ==> p[i] != p[j])
            && (forall i :: 0 <= i < |p| - 1 ==>
                  exists e :: e in edges && Anomalous(e) && e.from == p[i] && e.to == p[i + 1])
    decreases |es|
  {
    VisitsLength(symptom, es);
    if es != [] {
      var n := |es| - 1;
      var front := Visits(symptom, es[..n]);
      VisitsOnce(edges, symptom, es[..n]);
      VisitsLength(symptom, es[..n]);
      LastVisited(symptom, es[..n]);
      var p := Visits(symptom, es);
      assert p == front + [es[n].to];
      forall i | 0 <= i < |p| - 1
        ensures exists e :: e in edges && Anomalous(e) && e.from == p[i] && e.to == p[i + 1]
      {
        if i == |p| - 2 {
          assert es[n] in edges && es[n].from == p[i] && es[n].to == p[i + 1];
        } else {
          assert p[i] == front[i] && p[i + 1] == front[i + 1];
        }
      }
    }
  }

  lemma {:induction false} LastVisited(symptom: string, es: seq<Edge>)
    ensures |Visits(symptom, es)| == |es| + 1 && Visits(symptom, es)[|es|] == Last(symptom, es)
  {
    VisitsLength(symptom, es);
    if es != [] {
      VisitsLength(symptom, es[..|es| - 1]);
    }
  }

  // ---------------------------------------------------------------- what the search considers

  /** r is an anomalous edge that leaves the service, with its weight. */
  predicate Leaves(edges: seq<Edge>, log1p: Log1p, service: string, r: Ranked<Edge>) {
    r.item in edges && Anomalous(r.item) && r.item.from == service && r.weight == EdgeWeight(log1p, r.item)
  }

  lemma {:induction false} LeavingExactly(edges: seq<Edge>, service: string, log1p: Log1p, r: Ranked<Edge>)
    ensures r in Leaving(edges, service, log1p) <==> Leaves(edges, log1p, service, r)
    decreases |edges|
  {
    if edges != [] {
      LeavingExactly(edges[..|edges| - 1], service, log1p, r);
      assert edges == edges[..|edges| - 1] + [edges[|edges| - 1]];
    }
  }

  lemma {:induction false} OutgoingExactly(edges: seq<Edge>, service: string, log1p: Log1p, r: Ranked<Edge>)
    ensures r in Outgoing(edges, service, log1p) <==> Leaves(edges, log1p, service, r)
    ensures |Outgoing(edges, service, log1p)| == |Leaving(edges, service, log1p)|
  {
    LeavingExactly(edges, service, log1p, r);
    var leaving := Leaving(edges, service, log1p);
    SortSorts(leaving);
    assert r in SortDesc(leaving) <==> r in multiset(SortDesc(leaving));
    assert r in leaving <==> r in multiset(leaving);
  }

  lemma {:induction false} UnvisitedExactly(out: seq<Ranked<Edge>>, path: seq<string>, r: Ranked<Edge>)
    ensures r in Unvisited(out, path) <==> r in out && r.item.to !in path
    ensures |Unvisited(out, path)| <= |out|
    decreases |out|
  {
    if out != [] {
      UnvisitedExactly(out[1..], path, r);
      assert out == [out[0]] + out[1..];
    }
  }

  /** The candidates of the search at the end of es. */
  function Candidates(edges: seq<Edge>, log1p: Log1p, symptom: string, es: seq<Edge>): seq<Ranked<Edge>> {
    Unvisited(Outgoing(edges, Last(symptom, es), log1p), Visits(symptom, es))
  }

  lemma {:induction false} CandidatesExactly(edges: seq<Edge>, log1p: Log1p, symptom: string, es: seq<Edge>,
                                             r: Ranked<Edge>)
    ensures r in Candidates(edges, log1p, symptom, es) <==>
            Leaves(edges, log1p, Last(symptom, es), r) && r.item.to !in Visits(symptom, es)
    ensures |Candidates(edges, log1p, symptom, es)| <= |Leaving(edges, Last(symptom, es), log1p)|
  {
    OutgoingExactly(edges, Last(symptom, es), log1p, r);
    UnvisitedExactly(Outgoing(edges, Last(symptom, es), log1p), Visits(symptom, es), r);
  }

  lemma {:induction false} NoCandidatesIsStuck(edges: seq<Edge>, log1p: Log1p, symptom: string, es: seq<Edge>)
    ensures Candidates(edges, log1p, symptom, es) == [] <==> Stuck(edges, symptom, es)
  {
    var cs := Candidates(edges, log1p, symptom, es);
    if cs == [] {
      forall e | e in edges && Anomalous(e) && e.from == Last(symptom, es)
        ensures e.to in Visits(symptom, es)
      {
        CandidatesExactly(edges, log1p, symptom, es, Ranked(e, EdgeWeight(log1p, e)));
      }
    } else {
      CandidatesExactly(edges, log1p, symptom, es, cs[0]);
    }
  }

  /** The search from the end of a path already taken. */
  function WalkFrom(edges: seq<Edge>, log1p: Log1p, symptom: string, es: seq<Edge>): seq<Found> {
    Walk(edges, log1p, Last(symptom, es), Visits(symptom, es), WeightOf(log1p, es))
  }

  /** One step of the search, on paths as edge sequences. */
  lemma {:induction false} WalkFromSteps(edges: seq<Edge>, log1p: Log1p, symptom: string, es: seq<Edge>)
    requires |es| < MAX_PATH
    ensures var out := Candidates(edges, log1p, symptom, es);
            WalkFrom(edges, log1p, symptom, es) ==
            if |es| == MAX_PATH - 1 || (out == [] && es != []) then [AsFound(log1p, symptom, es)]
            else if out == [] then []
            else EachFrom(edges, log1p, symptom, es, Take(out, FAN_OUT))
  {
    VisitsLength(symptom, es);
  }

  function EachFrom(edges: seq<Edge>, log1p: Log1p, symptom: string, es: seq<Edge>,
                    out: seq<Ranked<Edge>>): seq<Found> {
    if |Visits(symptom, es)| < MAX_PATH then WalkEach(edges, log1p, out, Visits(symptom, es), WeightOf(log1p, es))
    else []
  }

  lemma EachFromSteps(edges: seq<Edge>, log1p: Log1p, symptom: string, es: seq<Edge>, out: seq<Ranked<Edge>>)
    requires |es| < MAX_PATH - 1 && out != [] && out[0].weight == EdgeWeight(log1p, out[0].item)
    ensures EachFrom(edges, log1p, symptom, es, out) ==
            WalkFrom(edges, log1p, symptom, es + [out[0].item]) + EachFrom(edges, log1p, symptom, es, out[1..])
  {
    VisitsLength(symptom, es);
    ExtendedBy(log1p, symptom, es, out[0].item);
    WalkEachFirst(edges, log1p, out, Visits(symptom, es), WeightOf(log1p, es));
  }

  lemma WalkEachFirst(edges: seq<Edge>, log1p: Log1p, out: seq<Ranked<Edge>>, path: seq<string>, weight: real)
    requires |path| < MAX_PATH && out != []
    ensures WalkEach(edges, log1p, out, path, weight) ==
            Walk(edges, log1p, out[0].item.to, path + [out[0].item.to], weight + out[0].weight)
            + WalkEach(edges, log1p, out[1..], path, weight)
  {}

  lemma ExtendedBy(log1p: Log1p, symptom: string, es: seq<Edge>, e: Edge)
    ensures Last(symptom, es + [e]) == e.to
    ensures Visits(symptom, es + [e]) == Visits(symptom, es) + [e.to]
    ensures WeightOf(log1p, es + [e]) == WeightOf(log1p, es) + EdgeWeight(log1p, e)
  {
    assert (es + [e])[..|es|] == es;
  }

  lemma ExtendedIsSimple(edges: seq<Edge>, log1p: Log1p, symptom: string, es: seq<Edge>, r: Ranked<Edge>)
    requires IsSimplePath(edges, symptom, es) && |es| < MAX_PATH - 1 && r in Candidates(edges, log1p, symptom, es)
    ensures IsSimplePath(edges, symptom, es + [r.item]) && r.weight == EdgeWeight(log1p, r.item)
  {
    CandidatesExactly(edges, log1p, symptom, es, r);
    assert (es + [r.item])[..|es|] == es;
  }

  // ---------------------------------------------------------------- soundness

  /** The edge at position k is one of the three the search follows there. */
  predicate Followed(edges: seq<Edge>, log1p: Log1p, symptom: string, full: seq<Edge>, k: nat)
    requires k < |full|
  {
    Ranked(full[k], EdgeWeight(log1p, full[k])) in Take(Candidates(edges, log1p, symptom, full[..k]), FAN_OUT)
  }

  /** ... from position n on. */
  predicate FollowedFrom(edges: seq<Edge>, log1p: Log1p, symptom: string, full: seq<Edge>, n: nat) {
    forall k: nat :: n <= k < |full| ==> Followed(edges, log1p, symptom, full, k)
  }

  /** A reportable path that extends es along followed edges and shows as f. */
  ghost predicate Finding(edges: seq<Edge>, log1p: Log1p, symptom: string, es: seq<Edge>, full: seq<Edge>, f: Found) {
    && IsReportable(edges, symptom, full) && es <= full && f == AsFound(log1p, symptom, full)
    && FollowedFrom(edges, log1p, symptom, full, |es|)
  }

  /** Everything the search finds from the end of es is a reportable path that extends es along followed edges. */
  lemma {:induction false} WalkSound(edges: seq<Edge>, log1p: Log1p, symptom: string, es: seq<Edge>, f: Found)
    returns (full: seq<Edge>)
    requires IsSimplePath(edges, symptom, es) && f in WalkFrom(edges, log1p, symptom, es)
    ensures Finding(edges, log1p, symptom, es, full, f)
    decreases MAX_PATH - |es|, 1, 0
  {
    WalkFromSteps(edges, log1p, symptom, es);
    NoCandidatesIsStuck(edges, log1p, symptom, es);
    var out := Candidates(edges, log1p, symptom, es);
    if |es| == MAX_PATH - 1 || out == [] {
      full := es;
    } else {
      full := EachSound(edges, log1p, symptom, es, Take(out, FAN_OUT), f);
    }
  }

  lemma TakenFrom<T>(s: seq<T>, n: nat, x: T)
    requires x in Take(s, n)
    ensures x in s
  {}

  lemma FollowedMore(edges: seq<Edge>, log1p: Log1p, symptom: string, full: seq<Edge>, n: nat)
    requires n < |full| && Followed(edges, log1p, symptom, full, n) && FollowedFrom(edges, log1p, symptom, full, n + 1)
    ensures FollowedFrom(edges, log1p, symptom, full, n)
  {}

  lemma FollowedHere(edges: seq<Edge>, log1p: Log1p, symptom: string, es: seq<Edge>, r: Ranked<Edge>, full: seq<Edge>)
    requires es + [r.item] <= full
    requires r in Take(Candidates(edges, log1p, symptom, es), FAN_OUT) && r.weight == EdgeWeight(log1p, r.item)
    ensures es <= full && |es| < |full| && Followed(edges, log1p, symptom, full, |es|)
  {
    assert full[..|es|] == es && full[|es|] == r.item;
  }

  lemma FoundThrough(edges: seq<Edge>, log1p: Log1p, symptom: string, es: seq<Edge>, r: Ranked<Edge>, full: seq<Edge>,
                     f: Found)
    requires Finding(edges, log1p, symptom, es + [r.item], full, f)
    requires r in Take(Candidates(edges, log1p, symptom, es), FAN_OUT) && r.weight == EdgeWeight(log1p, r.item)
    ensures Finding(edges, log1p, symptom, es, full, f)
  {
    FollowedHere(edges, log1p, symptom, es, r, full);
    FollowedMore(edges, log1p, symptom, full, |es|);
  }

  lemma {:induction false} EachSound(edges: seq<Edge>, log1p: Log1p, symptom: string, es: seq<Edge>,
                                     out: seq<Ranked<Edge>>, f: Found)
    returns (full: seq<Edge>)
    requires IsSimplePath(edges, symptom, es) && |es| < MAX_PATH - 1
    requires forall r :: r in out ==> r in Take(Candidates(edges, log1p, symptom, es), FAN_OUT)
    requires f in EachFrom(edges, log1p, symptom, es, out)
    ensures Finding(edges, log1p, symptom, es, full, f)
    decreases MAX_PATH - |es|, 0, |out|
  {
    var r := out[0];
    TakenFrom(Candidates(edges, log1p, symptom, es), FAN_OUT, r);
    ExtendedIsSimple(edges, log1p, symptom, es, r);
    EachFromSteps(edges, log1p, symptom, es, out);
    var here := WalkFrom(edges, log1p, symptom, es + [r.item]);
    if f in here {
      full := WalkSound(edges, log1p, symptom, es + [r.item], f);
      FoundThrough(edges, log1p, symptom, es, r, full, f);
    } else {
      full := EachSound(edges, log1p, symptom, es, out[1..], f);
    }
  }

  // ---------------------------------------------------------------- completeness

  /** No service has more than three anomalous outgoing edges. */
  ghost predicate NarrowFanOut(edges: seq<Edge>, log1p: Log1p) {
    forall s :: |Leaving(edges, s, log1p)| <= FAN_OUT
  }

  /** No simple path of fewer than six services has more than three ways on. */
  ghost predicate NarrowPaths(edges: seq<Edge>, log1p: Log1p, symptom: string) {
    forall es :: IsSimplePath(edges, symptom, es) && |es| < MAX_PATH - 1 ==>
      |Candidates(edges, log1p, symptom, es)| <= FAN_OUT
  }

  lemma {:induction false} NarrowFanOutIsNarrow(edges: seq<Edge>, log1p: Log1p, symptom: string)
    requires NarrowFanOut(edges, log1p)
    ensures NarrowPaths(edges, log1p, symptom)
  {
    forall es | IsSimplePath(edges, symptom, es) && |es| < MAX_PATH - 1
      ensures |Candidates(edges, log1p, symptom, es)| <= FAN_OUT
    {
      var e := Edge("", "", 0.0, 0.0);
      CandidatesExactly(edges, log1p, symptom, es, Ranked(e, 0.0));
      assert |Leaving(edges, Last(symptom, es), log1p)| <= FAN_OUT;
    }
  }

  lemma {:induction false} PrefixIsSimple(edges: seq<Edge>, symptom: string, full: seq<Edge>, k: nat)
    requires IsSimplePath(edges, symptom, full) && k <= |full|
    ensures IsSimplePath(edges, symptom, full[..k])
    decreases |full|
  {
    if k < |full| {
      assert full[..|full| - 1][..k] == full[..k];
      PrefixIsSimple(edges, symptom, full[..|full| - 1], k);
    } else {
      assert full[..k] == full;
    }
  }

  lemma PrefixGrows(full: seq<Edge>, k: nat)
    requires k < |full|
    ensures full[..k + 1] == full[..k] + [full[k]]
  {}

  /** At the end of a reportable path the search reports it. */
  lemma {:induction false} ReportsAtEnd(edges: seq<Edge>, log1p: Log1p, symptom: string, es: seq<Edge>)
    requires IsReportable(edges, symptom, es)
    ensures AsFound(log1p, symptom, es) in WalkFrom(edges, log1p, symptom, es)
  {
    WalkFromSteps(edges, log1p, symptom, es);
    NoCandidatesIsStuck(edges, log1p, symptom, es);
  }

  /** From any point of a reportable path the search finds it, if every edge from there on is a followed one. */
  lemma {:induction false} WalkComplete(edges: seq<Edge>, log1p: Log1p, symptom: string, full: seq<Edge>, k: nat)
    requires IsReportable(edges, symptom, full) && k <= |full| && FollowedFrom(edges, log1p, symptom, full, k)
    ensures AsFound(log1p, symptom, full) in WalkFrom(edges, log1p, symptom, full[..k])
    decreases |full| - k
  {
    if k == |full| {
      assert full[..k] == full;
      ReportsAtEnd(edges, log1p, symptom, full);
      return;
    }
    WalkComplete(edges, log1p, symptom, full, k + 1);
    assert Followed(edges, log1p, symptom, full, k);
    var r := Ranked(full[k], EdgeWeight(log1p, full[k]));
    PrefixGrows(full, k);
    CompleteVia(edges, log1p, symptom, full[..k], r, AsFound(log1p, symptom, full));
  }

  /** Exactly what the search finds: the reportable paths all of whose edges are among the three best ways on. */
  lemma {:induction false} FoundIff(edges: seq<Edge>, log1p: Log1p, symptom: string, f: Found)
    requires symptom != ""
    ensures f in AllFound(edges, log1p, symptom) <==> exists full :: Finding(edges, log1p, symptom, [], full, f)
  {
    assert WalkFrom(edges, log1p, symptom, []) == AllFound(edges, log1p, symptom);
    if f in AllFound(edges, log1p, symptom) {
      var full := WalkSound(edges, log1p, symptom, [], f);
    } else if full :| Finding(edges, log1p, symptom, [], full, f) {
      assert full[..0] == [];
      WalkComplete(edges, log1p, symptom, full, 0);
    }
  }

  /** On narrow paths every edge is followed. */
  lemma {:induction false} NarrowIsFollowed(edges: seq<Edge>, log1p: Log1p, symptom: string, full: seq<Edge>)
    requires NarrowPaths(edges, log1p, symptom) && IsSimplePath(edges, symptom, full) && |full| < MAX_PATH
    ensures FollowedFrom(edges, log1p, symptom, full, 0)
  {
    forall k: nat | k < |full| ensures Followed(edges, log1p, symptom, full, k) {
      NarrowAt(edges, log1p, symptom, full, k);
      var r := NextCandidate(edges, log1p, symptom, full, k);
    }
  }

  /** On narrow paths the search finds every reportable path. */
  lemma {:induction false} NarrowComplete(edges: seq<Edge>, log1p: Log1p, symptom: string, full: seq<Edge>)
    requires symptom != "" && NarrowPaths(edges, log1p, symptom) && IsReportable(edges, symptom, full)
    ensures AsFound(log1p, symptom, full) in AllFound(edges, log1p, symptom)
  {
    NarrowIsFollowed(edges, log1p, symptom, full);
    FoundIff(edges, log1p, symptom, AsFound(log1p, symptom, full));
    assert Finding(edges, log1p, symptom, [], full, AsFound(log1p, symptom, full));
  }

  lemma {:induction false} CandidateWeights(edges: seq<Edge>, log1p: Log1p, symptom: string, es: seq<Edge>)
    ensures forall x :: x in Candidates(edges, log1p, symptom, es) ==> x.weight == EdgeWeight(log1p, x.item)
  {
    forall x | x in Candidates(edges, log1p, symptom, es)
      ensures x.weight == EdgeWeight(log1p, x.item)
    {
      CandidatesExactly(edges, log1p, symptom, es, x);
    }
  }

  lemma NarrowAt(edges: seq<Edge>, log1p: Log1p, symptom: string, full: seq<Edge>, k: nat)
    requires NarrowPaths(edges, log1p, symptom) && IsSimplePath(edges, symptom, full) && k < |full| < MAX_PATH
    ensures |Candidates(edges, log1p, symptom, full[..k])| <= FAN_OUT
  {
    PrefixIsSimple(edges, symptom, full, k);
  }

  /** What is found behind one of the first three candidates is found before it. */
  lemma {:induction false} CompleteVia(edges: seq<Edge>, log1p: Log1p, symptom: string, es: seq<Edge>, r: Ranked<Edge>,
                                       f: Found)
    requires |es| < MAX_PATH - 1 && r in Take(Candidates(edges, log1p, symptom, es), FAN_OUT)
    requires f in WalkFrom(edges, log1p, symptom, es + [r.item])
    ensures f in WalkFrom(edges, log1p, symptom, es)
  {
    var out := Take(Candidates(edges, log1p, symptom, es), FAN_OUT);
    CandidateWeights(edges, log1p, symptom, es);
    EachHolds(edges, log1p, symptom, es, out, r, f);
    WalkFromEach(edges, log1p, symptom, es);
  }

  lemma WalkFromEach(edges: seq<Edge>, log1p: Log1p, symptom: string, es: seq<Edge>)
    requires |es| < MAX_PATH - 1 && Candidates(edges, log1p, symptom, es) != []
    ensures WalkFrom(edges, log1p, symptom, es) ==
            EachFrom(edges, log1p, symptom, es, Take(Candidates(edges, log1p, symptom, es), FAN_OUT))
  {
    WalkFromSteps(edges, log1p, symptom, es);
  }

  /** The next edge of a simple path is a candidate. */
  lemma {:induction false} NextCandidate(edges: seq<Edge>, log1p: Log1p, symptom: string, full: seq<Edge>, k: nat)
    returns (r: Ranked<Edge>)
    requires IsSimplePath(edges, symptom, full) && k < |full|
    ensures r == Ranked(full[k], EdgeWeight(log1p, full[k])) && r in Candidates(edges, log1p, symptom, full[..k])
  {
    r := Ranked(full[k], EdgeWeight(log1p, full[k]));
    PrefixIsSimple(edges, symptom, full, k + 1);
    assert full[..k + 1][..k] == full[..k];
    CandidatesExactly(edges, log1p, symptom, full[..k], r);
  }

  lemma {:induction false} EachHolds(edges: seq<Edge>, log1p: Log1p, symptom: string, es: seq<Edge>,
                                     out: seq<Ranked<Edge>>, r: Ranked<Edge>, f: Found)
    requires |es| < MAX_PATH - 1 && r in out && (forall x :: x in out ==> x.weight == EdgeWeight(log1p, x.item))
    requires f in WalkFrom(edges, log1p, symptom, es + [r.item])
    ensures f in EachFrom(edges, log1p, symptom, es, out)
    decreases |out|
  {
    EachFromSteps(edges, log1p, symptom, es, out);
    if out[0] != r {
      EachHolds(edges, log1p, symptom, es, out[1..], r, f);
    }
  }

  // ---------------------------------------------------------------- the result

  lemma BestOrder(edges: seq<Edge>, log1p: Log1p, symptom: string)
    ensures var best := Best(edges, log1p, symptom);
            var all := AllFound(edges, log1p, symptom);
            && |best| == (if |all| < MAX_RESULTS then |all| else MAX_RESULTS)
            && Descending(best)
            && (forall i :: 0 <= i < |best| ==> best[i] in all)
            && (forall f :: f in all ==>
                  f in best || (|best| == MAX_RESULTS && f.weight <= best[MAX_RESULTS - 1].weight))
  {
    var all := AllFound(edges, log1p, symptom);
    var sorted := SortDesc(all);
    SortSorts(all);
    forall f
      ensures f in sorted <==> f in all
    {
      assert f in multiset(sorted) <==> f in multiset(all);
    }
    forall f | f in all
      ensures f in Take(sorted, MAX_RESULTS) || (|sorted| > MAX_RESULTS && f.weight <= sorted[MAX_RESULTS - 1].weight)
    {
      var i :| 0 <= i < |sorted| && sorted[i] == f;
      if i < MAX_RESULTS {
        assert Take(sorted, MAX_RESULTS)[i] == f;
      } else {
        assert sorted[MAX_RESULTS - 1].weight >= sorted[i].weight;
      }
    }
  }

  /** Every returned path is a simple path of two to six services from the symptom along anomalous
      edges, that is stuck or has six services; there are at most three, in descending weight. */
  lemma {:induction false} BestAreReportable(edges: seq<Edge>, log1p: Log1p, symptom: string, i: nat)
    returns (es: seq<Edge>)
    requires i < |Best(edges, log1p, symptom)|
    ensures var best := Best(edges, log1p, symptom);
            && |best| <= MAX_RESULTS && Descending(best)
            && IsReportable(edges, symptom, es) && best[i] == AsFound(log1p, symptom, es)
            && 2 <= |best[i].item| <= MAX_PATH && best[i].item[0] == symptom
            && (forall a, b :: 0 <= a < b < |best[i].item| ==> best[i].item[a] != best[i].item[b])
  {
    BestOrder(edges, log1p, symptom);
    var f := Best(edges, log1p, symptom)[i];
    assert f in Walk(edges, log1p, symptom, [symptom], 0.0);
    assert f in WalkFrom(edges, log1p, symptom, []);
    es := WalkSound(edges, log1p, symptom, [], f);
    VisitsOnce(edges, symptom, es);
    VisitsLength(symptom, es);
  }

  /** es is returned or no heavier than the three that are. */
  ghost predicate IsOutranked(edges: seq<Edge>, log1p: Log1p, symptom: string, es: seq<Edge>) {
    var best := Best(edges, log1p, symptom);
    AsFound(log1p, symptom, es) in best
    || (|best| == MAX_RESULTS && forall i :: 0 <= i < MAX_RESULTS ==> WeightOf(log1p, es) <= best[i].weight)
  }

  /** Every reportable path along followed edges is returned or no heavier than the three that are. */
  lemma {:induction false} BestAreHeaviest(edges: seq<Edge>, log1p: Log1p, symptom: string, es: seq<Edge>)
    requires symptom != "" && IsReportable(edges, symptom, es) && FollowedFrom(edges, log1p, symptom, es, 0)
    ensures IsOutranked(edges, log1p, symptom, es)
  {
    var best := Best(edges, log1p, symptom);
    var f := AsFound(log1p, symptom, es);
    FoundIff(edges, log1p, symptom, f);
    assert Finding(edges, log1p, symptom, [], es, f);
    BestOrder(edges, log1p, symptom);
    if f !in best {
      forall i | 0 <= i < MAX_RESULTS
        ensures f.weight <= best[i].weight
      {
        assert i < MAX_RESULTS - 1 ==> best[i].weight >= best[MAX_RESULTS - 1].weight;
      }
    }
  }

  /** On narrow paths the returned ones are the heaviest of all reportable paths. */
  lemma {:induction false} NarrowBestAreHeaviest(edges: seq<Edge>, log1p: Log1p, symptom: string, es: seq<Edge>)
    requires symptom != "" && NarrowPaths(edges, log1p, symptom) && IsReportable(edges, symptom, es)
    ensures IsOutranked(edges, log1p, symptom, es)
  {
    NarrowIsFollowed(edges, log1p, symptom, es);
    BestAreHeaviest(edges, log1p, symptom, es);
  }

  /** ... and so if no service has more than three anomalous outgoing edges. */
  lemma {:induction false} FanOutBestAreHeaviest(edges: seq<Edge>, log1p: Log1p, symptom: string, es: seq<Edge>)
    requires symptom != "" && NarrowFanOut(edges, log1p) && IsReportable(edges, symptom, es)
    ensures IsOutranked(edges, log1p, symptom, es)
  {
    NarrowFanOutIsNarrow(edges, log1p, symptom);
    NarrowBestAreHeaviest(edges, log1p, symptom, es);
  }
}
