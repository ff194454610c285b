/**
  Exactly when the bounded search misses nothing: one piece of evidence gives one edge for each pair of services,
  and then a path with more than three ways on is enough to lose a reportable one.
 */
module TracePathsExact {
  import opened TraceTopology
  import opened TracePaths
  import opened TracePathsTheorem

  /** As one piece of evidence gives them: no two edges for one pair of services. */
  ghost predicate OneEdgePerPair(edges: seq<Edge>) {
    forall i: nat, j: nat :: i < j < |edges| ==> edges[i].from != edges[j].from || edges[i].to != edges[j].to
  }

  ghost predicate NoRepeats<T(!new)>(s: seq<T>) {
    forall x :: multiset(s)[x] <= 1
  }

  // ---------------------------------------------------------------- no candidate twice

  lemma {:induction false} LeavingOnce(edges: seq<Edge>, service: string, log1p: Log1p)
    requires OneEdgePerPair(edges)
    ensures NoRepeats(Leaving(edges, service, log1p))
    decreases |edges|
  {
    if edges != [] {
      var n := |edges| - 1;
      var last := Ranked(edges[n], EdgeWeight(log1p, edges[n]));
      LeavingOnce(edges[..n], service, log1p);
      LeavingExactly(edges[..n], service, log1p, last);
      assert edges[n] !in edges[..n];
    }
  }

  lemma {:induction false} UnvisitedOnce(out: seq<Ranked<Edge>>, path: seq<string>)
    ensures multiset(Unvisited(out, path)) <= multiset(out)
    decreases |out|
  {
    if out != [] {
      UnvisitedOnce(out[1..], path);
      assert out == [out[0]] + out[1..];
    }
  }

  lemma {:induction false} CandidatesOnce(edges: seq<Edge>, log1p: Log1p, symptom: string, es: seq<Edge>)
    requires OneEdgePerPair(edges)
    ensures NoRepeats(Candidates(edges, log1p, symptom, es))
  {
    var leaving := Leaving(edges, Last(symptom, es), log1p);
    LeavingOnce(edges, Last(symptom, es), log1p);
    SortSorts(leaving);
    UnvisitedOnce(SortDesc(leaving), Visits(symptom, es));
  }

  lemma NotTaken<T(!new)>(s: seq<T>, m: nat, n: nat)
    requires NoRepeats(s) && m <= n < |s|
    ensures s[n] !in Take(s, m)
  {
    assert s == s[..m] + (s[m..n] + [s[n]] + s[n + 1..]);
    assert multiset(s)[s[n]] == multiset(s[..m])[s[n]] + (multiset(s[m..n])[s[n]] + 1 + multiset(s[n + 1..])[s[n]]);
  }

  // ---------------------------------------------------------------- a path is its services

  lemma {:induction false} SameServicesSamePath(edges: seq<Edge>, symptom: string, a: seq<Edge>, b: seq<Edge>)
    requires OneEdgePerPair(edges) && IsSimplePath(edges, symptom, a) && IsSimplePath(edges, symptom, b)
    requires Visits(symptom, a) == Visits(symptom, b)
    ensures a == b
    decreases |a|
  {
    VisitsLength(symptom, a);
    VisitsLength(symptom, b);
    if a != [] {
      var n := |a| - 1;
      var x, y := a[..n], b[..n];
      assert Visits(symptom, x) == Visits(symptom, a)[..n + 1] && Visits(symptom, y) == Visits(symptom, b)[..n + 1] by {
        VisitsLength(symptom, x);
        VisitsLength(symptom, y);
      }
      SameServicesSamePath(edges, symptom, x, y);
      assert a[n].from == b[n].from && a[n].to == b[n].to;
      assert a == x + [a[n]] && b == y + [b[n]];
    }
  }

  /** Every simple path with an edge can be extended to a reportable one. */
  lemma {:induction false} Extend(edges: seq<Edge>, symptom: string, es: seq<Edge>) returns (full: seq<Edge>)
    requires IsSimplePath(edges, symptom, es) && es != []
    ensures IsReportable(edges, symptom, full) && es <= full
    decreases MAX_PATH - |es|
  {
    if |es| == MAX_PATH - 1 || Stuck(edges, symptom, es) {
      full := es;
    } else {
      var e :| e in edges && Anomalous(e) && e.from == Last(symptom, es) && e.to !in Visits(symptom, es);
      assert (es + [e])[..|es|] == es;
      full := Extend(edges, symptom, es + [e]);
    }
  }

  // ---------------------------------------------------------------- what is cut off is missed

  /** A path that goes on along a candidate behind the first three is not found. */
  lemma {:induction false} CutIsMissed(edges: seq<Edge>, log1p: Log1p, symptom: string, es: seq<Edge>, j: nat,
                                       full: seq<Edge>)
    requires OneEdgePerPair(edges) && IsReportable(edges, symptom, full) && es < full
    requires var cs := Candidates(edges, log1p, symptom, es); FAN_OUT <= j < |cs| && full[|es|] == cs[j].item
    ensures AsFound(log1p, symptom, full) !in AllFound(edges, log1p, symptom)
  {
    var f := AsFound(log1p, symptom, full);
    if f in AllFound(edges, log1p, symptom) {
      assert f in WalkFrom(edges, log1p, symptom, []);
      var found := WalkSound(edges, log1p, symptom, [], f);
      SameServicesSamePath(edges, symptom, found, full);
      FollowedIsTaken(edges, log1p, symptom, es, j, full);
      assert false;
    }
  }

  lemma FollowedIsTaken(edges: seq<Edge>, log1p: Log1p, symptom: string, es: seq<Edge>, j: nat, full: seq<Edge>)
    requires OneEdgePerPair(edges) && es < full
    requires var cs := Candidates(edges, log1p, symptom, es); FAN_OUT <= j < |cs| && full[|es|] == cs[j].item
    ensures !Followed(edges, log1p, symptom, full, |es|)
  {
    var cs := Candidates(edges, log1p, symptom, es);
    assert full[..|es|] == es;
    CandidateWeights(edges, log1p, symptom, es);
    assert cs[j] in cs;
    CandidatesOnce(edges, log1p, symptom, es);
    NotTaken(cs, FAN_OUT, j);
  }

  ghost predicate FindsAll(edges: seq<Edge>, log1p: Log1p, symptom: string) {
    forall es :: IsReportable(edges, symptom, es) ==> AsFound(log1p, symptom, es) in AllFound(edges, log1p, symptom)
  }

  lemma {:induction false} WideIsLossy(edges: seq<Edge>, log1p: Log1p, symptom: string, es: seq<Edge>)
    returns (full: seq<Edge>)
    requires OneEdgePerPair(edges) && IsSimplePath(edges, symptom, es) && |es| < MAX_PATH - 1
    requires |Candidates(edges, log1p, symptom, es)| > FAN_OUT
    ensures IsReportable(edges, symptom, full) && AsFound(log1p, symptom, full) !in AllFound(edges, log1p, symptom)
  {
    var r := Candidates(edges, log1p, symptom, es)[FAN_OUT];
    ExtendedIsSimple(edges, log1p, symptom, es, r);
    full := Extend(edges, symptom, es + [r.item]);
    assert full[|es|] == r.item && es < full;
    CutIsMissed(edges, log1p, symptom, es, FAN_OUT, full);
  }

  /** Exactly when the search finds every reportable path: no simple path of fewer than six services has more than
      three ways on. */
  lemma {:induction false} FindsAllIff(edges: seq<Edge>, log1p: Log1p, symptom: string)
    requires OneEdgePerPair(edges) && symptom != ""
    ensures FindsAll(edges, log1p, symptom) <==> NarrowPaths(edges, log1p, symptom)
  {
    if NarrowPaths(edges, log1p, symptom) {
      forall es | IsReportable(edges, symptom, es)
        ensures AsFound(log1p, symptom, es) in AllFound(edges, log1p, symptom)
      {
        NarrowComplete(edges, log1p, symptom, es);
      }
    } else {
      var es :| IsSimplePath(edges, symptom, es) && |es| < MAX_PATH - 1
          && |Candidates(edges, log1p, symptom, es)| > FAN_OUT;
      var full := WideIsLossy(edges, log1p, symptom, es);
    }
  }

  // ---------------------------------------------------------------- a heaviest path that is missed

  /** Four ways from s; the lightest leads on to the heaviest edge. */
  const TO_A := Edge("s", "a", 1.0, 4.0)
  const TO_B := Edge("s", "b", 1.0, 3.0)
  const TO_C := Edge("s", "c", 1.0, 2.0)
  const TO_D := Edge("s", "d", 1.0, 1.0)
  const BEYOND := Edge("d", "e", 1.0, 100.0)
  const FOUR_WAYS := [TO_A, TO_B, TO_C, TO_D, BEYOND]

  /** What is needed of log1p here: it grows, and a hundred calls and one outweigh four. */
  predicate Grows(log1p: Log1p) {
    log1p(4.0) >= log1p(3.0) >= log1p(2.0) >= log1p(1.0) && log1p(1.0) + log1p(100.0) > log1p(4.0)
  }

  function Weighed(log1p: Log1p, e: Edge): Ranked<Edge> {
    Ranked(e, EdgeWeight(log1p, e))
  }

  lemma {:induction false} InsertLast<T>(s: seq<Ranked<T>>, x: Ranked<T>)
    requires forall i: nat :: i < |s| ==> s[i].weight >= x.weight
    ensures InsertDesc(s, x) == s + [x]
    decreases |s|
  {
    if s != [] {
      InsertLast(s[1..], x);
      assert s == [s[0]] + s[1..];
    }
  }

  lemma {:induction false} SortedStays<T>(s: seq<Ranked<T>>)
    requires Descending(s)
    ensures SortDesc(s) == s
    decreases |s|
  {
    if s != [] {
      var n := |s| - 1;
      SortedStays(s[..n]);
      InsertLast(s[..n], s[n]);
      assert s == s[..n] + [s[n]];
    }
  }

  lemma {:induction false} LeavingAppends(edges: seq<Edge>, e: Edge, service: string, log1p: Log1p)
    ensures Leaving(edges + [e], service, log1p) ==
            Leaving(edges, service, log1p)
            + (if Anomalous(e) && e.from == service then [Ranked(e, EdgeWeight(log1p, e))] else [])
  {
    assert (edges + [e])[..|edges|] == edges;
  }

  lemma {:induction false} UnvisitedAll(out: seq<Ranked<Edge>>, path: seq<string>)
    requires forall i: nat :: i < |out| ==> out[i].item.to !in path
    ensures Unvisited(out, path) == out
    decreases |out|
  {
    if out != [] {
      UnvisitedAll(out[1..], path);
      assert out == [out[0]] + out[1..];
    }
  }

  lemma FourCandidates(log1p: Log1p)
    requires Grows(log1p)
    ensures Candidates(FOUR_WAYS, log1p, "s", []) ==
            [Weighed(log1p, TO_A), Weighed(log1p, TO_B), Weighed(log1p, TO_C), Weighed(log1p, TO_D)]
  {
    var four := [Weighed(log1p, TO_A), Weighed(log1p, TO_B), Weighed(log1p, TO_C), Weighed(log1p, TO_D)];
    LeavingAppends([], TO_A, "s", log1p);
    LeavingAppends([TO_A], TO_B, "s", log1p);
    LeavingAppends([TO_A, TO_B], TO_C, "s", log1p);
    LeavingAppends([TO_A, TO_B, TO_C], TO_D, "s", log1p);
    LeavingAppends([TO_A, TO_B, TO_C, TO_D], BEYOND, "s", log1p);
    assert [] + [TO_A] == [TO_A] && [TO_A] + [TO_B] == [TO_A, TO_B] && [TO_A, TO_B] + [TO_C] == [TO_A, TO_B, TO_C];
    assert [TO_A, TO_B, TO_C] + [TO_D] == [TO_A, TO_B, TO_C, TO_D] && [TO_A, TO_B, TO_C, TO_D] + [BEYOND] == FOUR_WAYS;
    assert Leaving(FOUR_WAYS, "s", log1p) == four;
    SortedStays(four);
    UnvisitedAll(four, ["s"]);
  }

  lemma HeavyIsReportable(log1p: Log1p)
    ensures IsReportable(FOUR_WAYS, "s", [TO_D, BEYOND]) && WeightOf(log1p, [TO_D, BEYOND]) == log1p(1.0) + log1p(100.0)
  {
    var one, two := [TO_D], [TO_D, BEYOND];
    assert one[..0] == [] && two[..1] == one;
    assert Visits("s", []) == ["s"] && Visits("s", one) == ["s"] + ["d"] && Visits("s", two) == ["s"] + ["d"] + ["e"];
    assert FOUR_WAYS[3] == TO_D && FOUR_WAYS[4] == BEYOND;
    assert IsSimplePath(FOUR_WAYS, "s", []) && IsSimplePath(FOUR_WAYS, "s", one);
    assert WeightOf(log1p, one) == 0.0 + log1p(1.0);
  }

  lemma SecondEdge(edges: seq<Edge>, symptom: string, es: seq<Edge>)
    requires IsSimplePath(edges, symptom, es) && |es| >= 2
    ensures es[1] in edges && es[1].from == es[0].to
  {
    PrefixIsSimple(edges, symptom, es, 2);
    assert es[..2][..1] == [es[0]];
  }

  /** Nothing leaves a, b and c. */
  lemma DeadEnds(es: seq<Edge>)
    requires IsSimplePath(FOUR_WAYS, "s", es) && es != [] && es[0] in {TO_A, TO_B, TO_C}
    ensures |es| == 1
  {
    if |es| > 1 {
      SecondEdge(FOUR_WAYS, "s", es);
      assert false;
    }
  }

  /** What the search finds goes along a, b or c, and ends there. */
  lemma FoundIsLight(log1p: Log1p, f: Found)
    requires Grows(log1p) && f in AllFound(FOUR_WAYS, log1p, "s")
    ensures f.weight <= log1p(4.0)
  {
    assert f in WalkFrom(FOUR_WAYS, log1p, "s", []);
    var es := WalkSound(FOUR_WAYS, log1p, "s", [], f);
    FourCandidates(log1p);
    assert es[..0] == [] && Followed(FOUR_WAYS, log1p, "s", es, 0);
    assert es[0] in {TO_A, TO_B, TO_C};
    DeadEnds(es);
    assert WeightOf(log1p, es) == 0.0 + EdgeWeight(log1p, es[0]);
  }

  /** It really happens: the path by way of d is heavier than all that are returned, and is missed. */
  lemma HeaviestIsMissed(log1p: Log1p)
    requires Grows(log1p)
    ensures IsReportable(FOUR_WAYS, "s", [TO_D, BEYOND])
    ensures AsFound(log1p, "s", [TO_D, BEYOND]) !in AllFound(FOUR_WAYS, log1p, "s")
    ensures var best := Best(FOUR_WAYS, log1p, "s");
            forall i: nat :: i < |best| ==> best[i].weight < WeightOf(log1p, [TO_D, BEYOND])
  {
    HeavyIsReportable(log1p);
    FourCandidates(log1p);
    CutIsMissed(FOUR_WAYS, log1p, "s", [], 3, [TO_D, BEYOND]);
    BestOrder(FOUR_WAYS, log1p, "s");
    var best := Best(FOUR_WAYS, log1p, "s");
    forall i: nat | i < |best| ensures best[i].weight < WeightOf(log1p, [TO_D, BEYOND]) {
      FoundIsLight(log1p, best[i]);
    }
  }
}
