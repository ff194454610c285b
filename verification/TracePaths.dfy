/**
  enumeratePaths (memory/index.ts): a depth-bounded search over anomalous edges from the symptom
  service, three edges per step, and the three heaviest paths it finds. log1p is a parameter.
 */
module TracePaths {
  import opened TraceTopology

  const MAX_PATH := 6
  const FAN_OUT := 3
  const MAX_RESULTS := 3

  type Log1p = real -> real

  function EdgeWeight(log1p: Log1p, e: Edge): real {
    e.errorRate * log1p(e.calls)
  }

  predicate Anomalous(e: Edge) {
    e.errorRate >= 0.1
  }

  /** A thing to sort, with its weight. */
  datatype Ranked<T> = Ranked(item: T, weight: real)

  /** A found path and its weight. */
  type Found = Ranked<seq<string>>

  // ---------------------------------------------------------------- stable descending sort

  /** Inserting x behind everything at least as heavy. */
  function InsertDesc<T>(s: seq<Ranked<T>>, x: Ranked<T>): seq<Ranked<T>> {
    if s == [] then [x]
    else if s[0].weight >= x.weight then [s[0]] + InsertDesc(s[1..], x)
    else [x] + s
  }

  /** A stable sort by descending weight. */
  function SortDesc<T>(s: seq<Ranked<T>>): seq<Ranked<T>>
    decreases |s|
  {
    if s == [] then [] else InsertDesc(SortDesc(s[..|s| - 1]), s[|s| - 1])
  }

  predicate Descending<T>(s: seq<Ranked<T>>) {
    forall i, j :: 0 <= i < j < |s| ==> s[i].weight >= s[j].weight
  }

  lemma {:induction false} InsertKeeps<T>(s: seq<Ranked<T>>, x: Ranked<T>)
    ensures multiset(InsertDesc(s, x)) == multiset(s) + multiset{x}
    decreases |s|
  {
    if s != [] && s[0].weight >= x.weight {
      InsertKeeps(s[1..], x);
      assert s == [s[0]] + s[1..];
    }
  }

  lemma {:induction false} InsertBounded<T>(s: seq<Ranked<T>>, x: Ranked<T>, j: nat)
    requires j < |InsertDesc(s, x)|
    ensures InsertDesc(s, x)[j] == x || InsertDesc(s, x)[j] in s
    decreases |s|
  {
    if s != [] && s[0].weight >= x.weight && j > 0 {
      InsertBounded(s[1..], x, j - 1);
    }
  }

  lemma {:induction false} InsertSorts<T>(s: seq<Ranked<T>>, x: Ranked<T>)
    requires Descending(s)
    ensures Descending(InsertDesc(s, x))
    ensures multiset(InsertDesc(s, x)) == multiset(s) + multiset{x}
    decreases |s|
  {
    InsertKeeps(s, x);
    if s != [] && s[0].weight >= x.weight {
      var rest := InsertDesc(s[1..], x);
      InsertSorts(s[1..], x);
      forall j: nat | j < |rest|
        ensures s[0].weight >= rest[j].weight
      {
        InsertBounded(s[1..], x, j);
      }
    }
  }

  lemma {:induction false} SortSorts<T>(s: seq<Ranked<T>>)
    ensures Descending(SortDesc(s))
    ensures multiset(SortDesc(s)) == multiset(s)
    ensures |SortDesc(s)| == |s|
    decreases |s|
  {
    if s != [] {
      var n := |s| - 1;
      SortSorts(s[..n]);
      InsertSorts(SortDesc(s[..n]), s[n]);
      assert s == s[..n] + [s[n]];
      assert |multiset(SortDesc(s))| == |multiset(s)|;
    }
  }

  // ---------------------------------------------------------------- the search

  /** The anomalous edges that leave a service, in the order of the list. */
  function Leaving(edges: seq<Edge>, service: string, log1p: Log1p): seq<Ranked<Edge>>
    decreases |edges|
  {
    if edges == [] then []
    else
      var e := edges[|edges| - 1];
      Leaving(edges[..|edges| - 1], service, log1p)
      + (if Anomalous(e) && e.from == service then [Ranked(e, EdgeWeight(log1p, e))] else [])
  }

  /** ... sorted by descending weight. */
  function Outgoing(edges: seq<Edge>, service: string, log1p: Log1p): seq<Ranked<Edge>> {
    SortDesc(Leaving(edges, service, log1p))
  }

  /** The edges that do not lead back into the path. */
  function Unvisited(out: seq<Ranked<Edge>>, path: seq<string>): seq<Ranked<Edge>> {
    if out == [] then [] else (if out[0].item.to in path then [] else [out[0]]) + Unvisited(out[1..], path)
  }

  function Take<T>(s: seq<T>, n: nat): seq<T> {
    if |s| <= n then s else s[..n]
  }

  function Walk(edges: seq<Edge>, log1p: Log1p, service: string, path: seq<string>, weight: real): seq<Found>
    decreases MAX_PATH - |path|, 1, 0
  {
    if |path| >= MAX_PATH then [Ranked(path, weight)]
    else
      var out := Unvisited(Outgoing(edges, service, log1p), path);
      if out == [] then (if |path| > 1 then [Ranked(path, weight)] else [])
      else WalkEach(edges, log1p, Take(out, FAN_OUT), path, weight)
  }

  function WalkEach(edges: seq<Edge>, log1p: Log1p, out: seq<Ranked<Edge>>, path: seq<string>, weight: real): seq<Found>
    requires |path| < MAX_PATH
    decreases MAX_PATH - |path|, 0, |out|
  {
    if out == [] then []
    else Walk(edges, log1p, out[0].item.to, path + [out[0].item.to], weight + out[0].weight)
         + WalkEach(edges, log1p, out[1..], path, weight)
  }

  function AllFound(edges: seq<Edge>, log1p: Log1p, symptom: string): seq<Found> {
    if symptom == "" then [] else Walk(edges, log1p, symptom, [symptom], 0.0)
  }

  function Best(edges: seq<Edge>, log1p: Log1p, symptom: string): seq<Found> {
    Take(SortDesc(AllFound(edges, log1p, symptom)), MAX_RESULTS)
  }

  /** The adjacency map and the paths array of enumeratePaths. */
  class PathSearch {
    const edges: seq<Edge>
    const log1p: Log1p
    var adjacency: map<string, seq<Ranked<Edge>>>
    var paths: seq<Found>

    ghost predicate Valid()
      reads this
    {
      forall s :: Adjacent(s) == Outgoing(edges, s, log1p)
    }

    function Adjacent(service: string): seq<Ranked<Edge>>
      reads this
    {
      if service in adjacency then adjacency[service] else []
    }

    constructor (edges: seq<Edge>, log1p: Log1p)
      ensures this.edges == edges && this.log1p == log1p
      ensures Valid() && paths == []
    {
      this.edges, this.log1p := edges, log1p;
      paths := [];
      var adj: map<string, seq<Ranked<Edge>>> := map[];
      for i := 0 to |edges|
        invariant forall s :: (if s in adj then adj[s] else []) == Outgoing(edges[..i], s, log1p)
      {
        var e := edges[i];
        OutgoingNext(edges, i, log1p);
        if Anomalous(e) {
          var outgoing := if e.from in adj then adj[e.from] else [];
          outgoing := InsertDesc(outgoing, Ranked(e, EdgeWeight(log1p, e)));
          adj := adj[e.from := outgoing];
        }
      }
      assert edges[..|edges|] == edges;
      adjacency := adj;
    }

    /** The closure walk(). */
    method Visit(service: string, path: seq<string>, weight: real)
      requires Valid() && |path| <= MAX_PATH
      modifies this`paths
      ensures Valid() && paths == old(paths) + Walk(edges, log1p, service, path, weight)
      decreases MAX_PATH - |path|, 2
    {
      if |path| >= MAX_PATH {
        paths := paths + [Ranked(path, weight)];
        return;
      }
      var outgoing := Unvisited(Adjacent(service), path);
      if outgoing == [] {
        if |path| > 1 {
          paths := paths + [Ranked(path, weight)];
        }
        return;
      }
      VisitEach(Take(outgoing, FAN_OUT), path, weight);
    }

    /** outgoing.slice(0, 3).forEach(...) */
    method VisitEach(taken: seq<Ranked<Edge>>, path: seq<string>, weight: real)
      requires Valid() && |path| < MAX_PATH
      modifies this`paths
      ensures Valid() && paths == old(paths) + WalkEach(edges, log1p, taken, path, weight)
      decreases MAX_PATH - |path|, 1
    {
      for i := 0 to |taken|
        invariant Valid()
        invariant paths == old(paths) + WalkEach(edges, log1p, taken[..i], path, weight)
      {
        VisitNext(taken, i, path, weight, old(paths));
      }
      assert taken[..|taken|] == taken;
    }

    /** The callback for one edge, given what the ones before it found. */
    method VisitNext(taken: seq<Ranked<Edge>>, i: nat, path: seq<string>, weight: real, ghost before: seq<Found>)
      requires Valid() && |path| < MAX_PATH && i < |taken|
      requires paths == before + WalkEach(edges, log1p, taken[..i], path, weight)
      modifies this`paths
      ensures Valid() && paths == before + WalkEach(edges, log1p, taken[..i + 1], path, weight)
      decreases MAX_PATH - |path|, 0
    {
      WalkEachAppends(edges, log1p, before, taken, i, path, weight);
      Visit(taken[i].item.to, path + [taken[i].item.to], weight + taken[i].weight);
    }
  }

  lemma {:induction false} WalkEachNext(edges: seq<Edge>, log1p: Log1p, taken: seq<Ranked<Edge>>, i: nat,
                                        path: seq<string>, weight: real)
    requires i < |taken| && |path| < MAX_PATH
    ensures WalkEach(edges, log1p, taken[..i + 1], path, weight) ==
            WalkEach(edges, log1p, taken[..i], path, weight)
            + Walk(edges, log1p, taken[i].item.to, path + [taken[i].item.to], weight + taken[i].weight)
    decreases i
  {
    var more := taken[..i + 1];
    if i == 0 {
      assert more == [taken[0]] && more[1..] == [];
    } else {
      assert more[0] == taken[0] && more[1..] == taken[1..][..i] && taken[..i][1..] == taken[1..][..i - 1];
      WalkEachNext(edges, log1p, taken[1..], i - 1, path, weight);
    }
  }

  lemma WalkEachAppends(edges: seq<Edge>, log1p: Log1p, paths: seq<Found>, taken: seq<Ranked<Edge>>, i: nat,
                        path: seq<string>, weight: real)
    requires i < |taken| && |path| < MAX_PATH
    ensures paths + WalkEach(edges, log1p, taken[..i + 1], path, weight) ==
            paths + WalkEach(edges, log1p, taken[..i], path, weight)
            + Walk(edges, log1p, taken[i].item.to, path + [taken[i].item.to], weight + taken[i].weight)
  {
    WalkEachNext(edges, log1p, taken, i, path, weight);
  }

  lemma OutgoingNext(edges: seq<Edge>, i: nat, log1p: Log1p)
    requires i < |edges|
    ensures forall s :: Outgoing(edges[..i + 1], s, log1p) ==
              if Anomalous(edges[i]) && edges[i].from == s
              then InsertDesc(Outgoing(edges[..i], s, log1p), Ranked(edges[i], EdgeWeight(log1p, edges[i])))
              else Outgoing(edges[..i], s, log1p)
  {
    assert edges[..i + 1][..i] == edges[..i];
    forall s
      ensures Outgoing(edges[..i + 1], s, log1p) ==
              if Anomalous(edges[i]) && edges[i].from == s
              then InsertDesc(Outgoing(edges[..i], s, log1p), Ranked(edges[i], EdgeWeight(log1p, edges[i])))
              else Outgoing(edges[..i], s, log1p)
    {
      var before, after := Leaving(edges[..i], s, log1p), Leaving(edges[..i + 1], s, log1p);
      if Anomalous(edges[i]) && edges[i].from == s {
        assert after == before + [Ranked(edges[i], EdgeWeight(log1p, edges[i]))];
        assert after[..|after| - 1] == before;
      } else {
        assert after == before;
      }
    }
  }

  /** enumeratePaths: the best three found paths. */
  method EnumeratePaths(edges: seq<Edge>, log1p: Log1p, symptom: string) returns (paths: seq<seq<string>>)
    ensures |paths| == |Best(edges, log1p, symptom)|
    ensures forall i :: 0 <= i < |paths| ==> paths[i] == Best(edges, log1p, symptom)[i].item
  {
    var search := new PathSearch(edges, log1p);
    if symptom != "" {
      search.Visit(symptom, [symptom], 0.0);
    }
    assert search.paths == AllFound(edges, log1p, symptom);
    var best := Take(SortDesc(search.paths), MAX_RESULTS);
    paths := seq(|best|, i requires 0 <= i < |best| => best[i].item);
  }
}
