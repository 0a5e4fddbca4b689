/**
 The second half of replay: the edges that merge something become adjacency lists, and a
 breadth-first walk carries the weakest edge from the anchor to every member.
 */
module ReplayWalk {
  import opened Sequences
  import opened Connectivity
  import opened Tree
  import opened ReplaySpec
  import opened ReplayEdges
  import opened UnionFind

  datatype Edge = Edge(to: string, confidence: real)

  // ---------- merging ----------

  /** root is the partition that merging ps produces on the names that ps mentions. */
  ghost predicate Partitions(root: map<string, string>, ps: seq<Pair>) {
    (forall x :: x in root <==> Mentions(ps, x)) &&
    forall x, y :: x in root && y in root ==> (root[x] == root[y] <==> Joined(ps, x, y))
  }

  ghost predicate Mentions(ps: seq<Pair>, x: string) {
    exists p :: p in ps && (p.a == x || p.b == x)
  }

  lemma RootMeansJoined(root: map<string, string>, ps: seq<Pair>, x: string, y: string)
    requires Partitions(root, ps)
    requires RootsInside(root)
    ensures RootOf(root, x) == RootOf(root, y) <==> Joined(ps, x, y)
  {
    if x !in root {
      UntouchedAlone(ps, x, y);
    }
    if y !in root {
      UntouchedAlone(ps, y, x);
    }
  }

  lemma MergeMentions(root: map<string, string>, ps: seq<Pair>, p: Pair, root': map<string, string>)
    requires Partitions(root, ps)
    requires Merges(root, p.a, p.b, root')
    ensures forall x :: x in root' <==> Mentions(ps + [p], x)
  {
    forall x
      ensures x in root' <==> Mentions(ps + [p], x)
    {
      MentionsOneMore(ps, p, x);
    }
  }

  lemma MergeAddsLink(root: map<string, string>, ps: seq<Pair>, p: Pair, root': map<string, string>)
    requires Partitions(root, ps)
    requires RootsInside(root)
    requires Merges(root, p.a, p.b, root')
    ensures Partitions(root', ps + [p])
  {
    MergeMentions(root, ps, p, root');
    forall x, y | x in root' && y in root'
      ensures root'[x] == root'[y] <==> Joined(ps + [p], x, y)
    {
      MergeJoins(root, ps, p, x, y);
    }
  }

  lemma MentionsOneMore(ps: seq<Pair>, p: Pair, x: string)
    ensures Mentions(ps + [p], x) <==> Mentions(ps, x) || x == p.a || x == p.b
  {
    assert p in ps + [p];
    assert forall q :: q in ps + [p] <==> q in ps || q == p;
  }

  lemma MergeJoins(root: map<string, string>, ps: seq<Pair>, p: Pair, x: string, y: string)
    requires Partitions(root, ps) && RootsInside(root)
    ensures MergedBy(RootOf(root, p.a), RootOf(root, p.b), RootOf(root, x), RootOf(root, y)) <==> Joined(ps + [p], x, y)
  {
    InitOfAppend(ps, p);
    RootMeansJoined(root, ps, x, y);
    RootMeansJoined(root, ps, x, p.a);
    RootMeansJoined(root, ps, x, p.b);
    RootMeansJoined(root, ps, y, p.a);
    RootMeansJoined(root, ps, y, p.b);
  }

  // ---------- adjacency ----------

  /** The edges out of x, in the order in which the links of ts were added. */
  ghost function Adjacent(ts: seq<Pair>, c: Pair -> real, x: string): seq<Edge> {
    if ts == [] then []
    else
      var p := Last(ts);
      Adjacent(Init(ts), c, x) +
      (if p.a == x then [Edge(p.b, c(p))] else []) +
      (if p.b == x then [Edge(p.a, c(p))] else [])
  }

  function Out(adjacency: map<string, seq<Edge>>, x: string): seq<Edge> {
    if x in adjacency then adjacency[x] else []
  }

  ghost predicate Adjoins(adjacency: map<string, seq<Edge>>, ts: seq<Pair>, c: Pair -> real) {
    forall x :: Out(adjacency, x) == Adjacent(ts, c, x)
  }

  /** The edges out of x are exactly the links at x. */
  lemma {:induction false} AdjacentLinks(ts: seq<Pair>, c: Pair -> real, x: string)
    ensures forall e :: e in Adjacent(ts, c, x) ==> exists p :: p in ts && p.Links(x, e.to) && e.confidence == c(p)
    ensures forall p, y :: p in ts && p.Links(x, y) ==> Edge(y, c(p)) in Adjacent(ts, c, x)
  {
    if ts != [] {
      AdjacentLinks(Init(ts), c, x);
      assert ts == Init(ts) + [Last(ts)];
      forall e | e in Adjacent(ts, c, x)
        ensures exists p :: p in ts && p.Links(x, e.to) && e.confidence == c(p)
      {
        if e in Adjacent(Init(ts), c, x) {
          var p :| p in Init(ts) && p.Links(x, e.to) && e.confidence == c(p);
          assert p in ts;
        } else {
          assert Last(ts) in ts && Last(ts).Links(x, e.to) && e.confidence == c(Last(ts));
        }
      }
    }
  }

  function AddEdge(adjacency: map<string, seq<Edge>>, from: string, e: Edge): map<string, seq<Edge>> {
    adjacency[from := Out(adjacency, from) + [e]]
  }

  lemma OutOfAdded(adjacency: map<string, seq<Edge>>, from: string, e: Edge, x: string)
    ensures Out(AddEdge(adjacency, from, e), x) == if x == from then Out(adjacency, x) + [e] else Out(adjacency, x)
  {
  }

  lemma OutOfBoth(adjacency: map<string, seq<Edge>>, ts: seq<Pair>, c: Pair -> real, p: Pair, x: string)
    requires Out(adjacency, x) == Adjacent(ts, c, x) && p.a != p.b
    ensures Out(AddEdge(AddEdge(adjacency, p.a, Edge(p.b, c(p))), p.b, Edge(p.a, c(p))), x) == Adjacent(ts + [p], c, x)
  {
    InitOfAppend(ts, p);
    OutOfAdded(adjacency, p.a, Edge(p.b, c(p)), x);
    OutOfAdded(AddEdge(adjacency, p.a, Edge(p.b, c(p))), p.b, Edge(p.a, c(p)), x);
  }

  lemma AdjoinsOneMore(adjacency: map<string, seq<Edge>>, ts: seq<Pair>, c: Pair -> real, p: Pair)
    requires Adjoins(adjacency, ts, c)
    requires p.a != p.b
    ensures Adjoins(AddEdge(AddEdge(adjacency, p.a, Edge(p.b, c(p))), p.b, Edge(p.a, c(p))), ts + [p], c)
  {
    var one := AddEdge(adjacency, p.a, Edge(p.b, c(p)));
    var two := AddEdge(one, p.b, Edge(p.a, c(p)));
    forall x
      ensures Out(two, x) == Adjacent(ts + [p], c, x)
    {
      OutOfBoth(adjacency, ts, c, p, x);
    }
  }

  lemma KeptLink(adjacency: map<string, seq<Edge>>, ps: seq<Pair>, c: Pair -> real, p: Pair)
    requires Adjoins(adjacency, Forest(ps), c)
    ensures !Joined(ps, p.a, p.b) ==>
              Adjoins(AddEdge(AddEdge(adjacency, p.a, Edge(p.b, c(p))), p.b, Edge(p.a, c(p))), Forest(ps + [p]), c)
    ensures Joined(ps, p.a, p.b) ==> Adjoins(adjacency, Forest(ps + [p]), c)
  {
    InitOfAppend(ps, p);
    if !Joined(ps, p.a, p.b) {
      AdjoinsOneMore(adjacency, Forest(ps), c, p);
    }
  }

  /** Unions one edge, and keeps it in the adjacency lists if it merged something. */
  method UnionEdge(dsu: DSU<string>, ce: CombinedEdge, adjacency: map<string, seq<Edge>>, ghost ps: seq<Pair>, ghost c: Pair -> real)
    returns (adjacency': map<string, seq<Edge>>)
    requires dsu.Valid() && Partitions(dsu.root, ps) && Adjoins(adjacency, Forest(ps), c)
    requires ce.confidence == c(ce.key)
    modifies dsu
    ensures dsu.Valid() && Partitions(dsu.root, ps + [ce.key])
    ensures Adjoins(adjacency', Forest(ps + [ce.key]), c)
  {
    dsu.RootsRegistered();
    RootMeansJoined(dsu.root, ps, ce.key.a, ce.key.b);
    KeptLink(adjacency, ps, c, ce.key);
    ghost var before := dsu.root;
    var merged := dsu.Union(ce.key.a, ce.key.b);
    MergeAddsLink(before, ps, ce.key, dsu.root);
    adjacency' := adjacency;
    if merged {
      adjacency' := AddEdge(adjacency', ce.key.a, Edge(ce.key.b, ce.confidence));
      adjacency' := AddEdge(adjacency', ce.key.b, Edge(ce.key.a, ce.confidence));
    }
  }

  /** Unions the edges in order; the merging ones become adjacency. */
  method UnionEdges(dsu: DSU<string>, edges: seq<CombinedEdge>, ghost ps: seq<Pair>, ghost c: Pair -> real)
    returns (adjacency: map<string, seq<Edge>>)
    requires dsu.Valid() && dsu.root == map[]
    requires |edges| == |ps| && forall i :: 0 <= i < |edges| ==> edges[i].key == ps[i] && edges[i].confidence == c(ps[i])
    modifies dsu
    ensures dsu.Valid() && Partitions(dsu.root, ps)
    ensures Adjoins(adjacency, Forest(ps), c)
  {
    adjacency := map[];
    for i := 0 to |edges|
      invariant dsu.Valid() && Partitions(dsu.root, ps[..i])
      invariant Adjoins(adjacency, Forest(ps[..i]), c)
    {
      assert ps[..i + 1] == ps[..i] + [edges[i].key];
      adjacency := UnionEdge(dsu, edges[i], adjacency, ps[..i], c);
    }
    assert ps[..|ps|] == ps;
  }

  // ---------- the walk ----------

  ghost function Ends(ts: seq<Pair>): set<string> {
    (set p | p in ts :: p.a) + (set p | p in ts :: p.b)
  }

  /** v has been reached from r along its tree path, and carries the weakest edge of that path. */
  ghost predicate Settled(ts: seq<Pair>, c: Pair -> real, r: string, confidence: map<string, real>, v: string) {
    Joined(ts, r, v) &&
    v in confidence && confidence[v] == Weakest(TreePath(ts, r, v), c) &&
    forall p :: p in TreePath(ts, r, v) ==> p.a in confidence && p.b in confidence
  }

  ghost predicate AllSettled(ts: seq<Pair>, c: Pair -> real, r: string, confidence: map<string, real>) {
    r in confidence && forall v :: v in confidence ==> Settled(ts, c, r, confidence, v)
  }

  ghost predicate Explored(ts: seq<Pair>, visited: set<string>, u: string) {
    forall p, v :: p in ts && p.Links(u, v) ==> v in visited
  }

  lemma StartSettled(ts: seq<Pair>, c: Pair -> real, r: string)
    requires Acyclic(ts)
    ensures AllSettled(ts, c, r, map[r := 1.0])
  {
    EveryWalkCoversTreePath(ts, r, [], r);
    assert TreePath(ts, r, r) == {};
  }

  lemma VisitSettles(ts: seq<Pair>, c: Pair -> real, r: string, confidence: map<string, real>, u: string, e: Edge)
    requires Acyclic(ts) && AllSettled(ts, c, r, confidence)
    requires u in confidence && e in Adjacent(ts, c, u) && e.to !in confidence
    ensures e.to in Ends(ts)
    ensures AllSettled(ts, c, r, confidence[e.to := if e.confidence < confidence[u] then e.confidence else confidence[u]])
  {
    var w := if e.confidence < confidence[u] then e.confidence else confidence[u];
    var confidence' := confidence[e.to := w];
    AdjacentLinks(ts, c, u);
    var p :| p in ts && p.Links(u, e.to) && e.confidence == c(p);
    assert Settled(ts, c, r, confidence, u);
    TreeStep(ts, p, r, u, e.to);
    WeakestExtend(TreePath(ts, r, u), c, p);
    forall v | v in confidence'
      ensures Settled(ts, c, r, confidence', v)
    {
      if v != e.to {
        assert Settled(ts, c, r, confidence, v);
      }
    }
  }

  lemma {:induction false} ExploredCoversWalk(ts: seq<Pair>, visited: set<string>, r: string, w: seq<Pair>, v: string)
    requires r in visited && forall u :: u in visited ==> Explored(ts, visited, u)
    requires Walk(ts, r, w, v)
    ensures v in visited
  {
    if w != [] {
      var u := if Last(w).b == v && Walk(ts, r, Init(w), Last(w).a) then Last(w).a else Last(w).b;
      ExploredCoversWalk(ts, visited, r, Init(w), u);
      assert Explored(ts, visited, u) && Last(w).Links(u, v);
    }
  }

  /** Every visited name is queued, is the busy one, or has all its neighbours visited. */
  ghost predicate Frontier(ts: seq<Pair>, visited: set<string>, queue: seq<string>, busy: set<string>) {
    (forall u :: u in queue ==> u in visited) &&
    forall u :: u in visited ==> u in queue || u in busy || Explored(ts, visited, u)
  }

  lemma FrontierGrows(ts: seq<Pair>, visited: set<string>, queue: seq<string>, busy: set<string>, v: string)
    requires Frontier(ts, visited, queue, busy)
    ensures Frontier(ts, visited + {v}, queue + [v], busy)
  {
    assert v in queue + [v];
    forall u | u in visited && u !in queue && u !in busy
      ensures Explored(ts, visited + {v}, u)
    {
      assert Explored(ts, visited, u);
    }
  }

  lemma FrontierPops(ts: seq<Pair>, visited: set<string>, queue: seq<string>)
    requires queue != [] && Frontier(ts, visited, queue, {})
    ensures queue[0] in visited && Frontier(ts, visited, queue[1..], {queue[0]})
  {
    assert queue == [queue[0]] + queue[1..];
  }

  /** The state of the walk while the first k edges out of cur have been looked at. */
  ghost predicate Visiting(ts: seq<Pair>, c: Pair -> real, r: string, cur: string, k: nat,
                           confidence: map<string, real>, visited: set<string>, queue: seq<string>)
  {
    visited == confidence.Keys && cur in visited &&
    AllSettled(ts, c, r, confidence) &&
    Frontier(ts, visited, queue, {cur}) &&
    k <= |Adjacent(ts, c, cur)| &&
    forall e :: e in Adjacent(ts, c, cur)[..k] ==> e.to in visited
  }

  lemma SkipVisited(ts: seq<Pair>, c: Pair -> real, r: string, cur: string, k: nat,
                    confidence: map<string, real>, visited: set<string>, queue: seq<string>)
    requires Visiting(ts, c, r, cur, k, confidence, visited, queue)
    requires k < |Adjacent(ts, c, cur)| && Adjacent(ts, c, cur)[k].to in visited
    ensures Visiting(ts, c, r, cur, k + 1, confidence, visited, queue)
  {
    var out := Adjacent(ts, c, cur);
    assert out[..k + 1] == out[..k] + [out[k]];
  }

  lemma VisitNext(ts: seq<Pair>, c: Pair -> real, r: string, cur: string, k: nat,
                  confidence: map<string, real>, visited: set<string>, queue: seq<string>, e: Edge, weakest: real)
    requires Acyclic(ts) && Visiting(ts, c, r, cur, k, confidence, visited, queue)
    requires k < |Adjacent(ts, c, cur)| && e == Adjacent(ts, c, cur)[k] && e.to !in visited
    requires weakest == if e.confidence < confidence[cur] then e.confidence else confidence[cur]
    ensures Visiting(ts, c, r, cur, k + 1, confidence[e.to := weakest], visited + {e.to}, queue + [e.to])
    ensures e.to in Ends(ts)
  {
    assert e in Adjacent(ts, c, cur);
    VisitSettles(ts, c, r, confidence, cur, e);
    FrontierGrows(ts, visited, queue, {cur}, e.to);
    SkipCovers(Adjacent(ts, c, cur), k, visited);
  }

  lemma SkipCovers(out: seq<Edge>, k: nat, visited: set<string>)
    requires k < |out| && forall e :: e in out[..k] ==> e.to in visited
    ensures forall e :: e in out[..k + 1] ==> e.to in visited + {out[k].to}
  {
    assert out[..k + 1] == out[..k] + [out[k]];
  }

  /** Visits the unvisited neighbours of cur, in adjacency order. */
  method VisitNeighbours(cur: string, out: seq<Edge>, confidence: map<string, real>, visited: set<string>, queue: seq<string>,
                         ghost ts: seq<Pair>, ghost c: Pair -> real, ghost r: string)
    returns (confidence': map<string, real>, visited': set<string>, queue': seq<string>)
    requires Acyclic(ts) && out == Adjacent(ts, c, cur)
    requires Visiting(ts, c, r, cur, 0, confidence, visited, queue)
    ensures Visiting(ts, c, r, cur, |out|, confidence', visited', queue')
    ensures (visited' == visited && queue' == queue) || Ends(ts) - visited' < Ends(ts) - visited
  {
    confidence', visited', queue' := confidence, visited, queue;
    for k := 0 to |out|
      invariant Visiting(ts, c, r, cur, k, confidence', visited', queue')
      invariant visited <= visited'
      invariant (visited' == visited && queue' == queue) || Ends(ts) - visited' < Ends(ts) - visited
    {
      var e := out[k];
      if e.to in visited' {
        SkipVisited(ts, c, r, cur, k, confidence', visited', queue');
        continue;
      }
      var weakest := confidence'[cur];
      if e.confidence < weakest {
        weakest := e.confidence;
      }
      VisitNext(ts, c, r, cur, k, confidence', visited', queue', e, weakest);
      assert e.to in Ends(ts) - visited;
      visited' := visited' + {e.to};
      confidence' := confidence'[e.to := weakest];
      queue' := queue' + [e.to];
    }
  }

  lemma VisitingDone(ts: seq<Pair>, c: Pair -> real, r: string, cur: string,
                     confidence: map<string, real>, visited: set<string>, queue: seq<string>)
    requires Visiting(ts, c, r, cur, |Adjacent(ts, c, cur)|, confidence, visited, queue)
    ensures Frontier(ts, visited, queue, {})
  {
    AdjacentLinks(ts, c, cur);
    var out := Adjacent(ts, c, cur);
    assert out[..|out|] == out;
    forall p, v | p in ts && p.Links(cur, v)
      ensures v in visited
    {
      assert Edge(v, c(p)) in out;
    }
    assert Explored(ts, visited, cur);
  }

  /** Walks the forest breadth first from r: every member of r's tree gets the weakest edge on its
      way, and nothing else is reached. */
  method WalkFromAnchor(r: string, adjacency: map<string, seq<Edge>>, ghost ts: seq<Pair>, ghost c: Pair -> real)
    returns (confidence: map<string, real>)
    requires Acyclic(ts) && Adjoins(adjacency, ts, c)
    ensures AllSettled(ts, c, r, confidence)
    ensures forall v :: v in confidence <==> Joined(ts, r, v)
  {
    confidence := map[r := 1.0];
    var visited, queue := {r}, [r];
    StartSettled(ts, c, r);
    while queue != []
      invariant visited == confidence.Keys
      invariant AllSettled(ts, c, r, confidence)
      invariant Frontier(ts, visited, queue, {})
      decreases Ends(ts) - visited, |queue|
    {
      var cur := queue[0];
      FrontierPops(ts, visited, queue);
      assert Out(adjacency, cur) == Adjacent(ts, c, cur);
      confidence, visited, queue :=
        VisitNeighbours(cur, Out(adjacency, cur), confidence, visited, queue[1..], ts, c, r);
      VisitingDone(ts, c, r, cur, confidence, visited, queue);
    }
    forall v | Joined(ts, r, v)
      ensures v in confidence
    {
      var w := JoinedHasWalk(ts, r, v);
      ExploredCoversWalk(ts, visited, r, w, v);
    }
    forall v | v in confidence
      ensures Joined(ts, r, v)
    {
      assert Settled(ts, c, r, confidence, v);
    }
  }
}
