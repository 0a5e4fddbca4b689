/**
 The spanning forest that in-order merging leaves behind: the links whose ends were still apart
 when they were reached. The path between two joined names is the set of links that no walk
 between them can avoid.
 */
module Tree {
  import opened Connectivity
  import opened Sequences

  /** The links that merged something, in order. */
  ghost function Forest(ps: seq<Pair>): seq<Pair> {
    if ps == [] then []
    else if Joined(Init(ps), Last(ps).a, Last(ps).b) then Forest(Init(ps))
    else Forest(Init(ps)) + [Last(ps)]
  }

  /** Every link joins two names that the earlier links leave apart. */
  ghost predicate Acyclic(ts: seq<Pair>) {
    ts == [] || (Acyclic(Init(ts)) && !Joined(Init(ts), Last(ts).a, Last(ts).b))
  }

  /** The links between x and y in an acyclic list of links; none when x and y are apart. */
  ghost function TreePath(ts: seq<Pair>, x: string, y: string): set<Pair> {
    if ts == [] || !Joined(ts, x, y) then {}
    else
      var i, p := Init(ts), Last(ts);
      if Joined(i, x, y) then TreePath(i, x, y)
      else if Joined(i, x, p.a) then TreePath(i, x, p.a) + {p} + TreePath(i, p.b, y)
      else TreePath(i, x, p.b) + {p} + TreePath(i, p.a, y)
  }

  lemma {:induction false} ForestShape(ps: seq<Pair>)
    ensures Acyclic(Forest(ps))
    ensures forall x :: Label(Forest(ps), x) == Label(ps, x)
    ensures forall p :: p in Forest(ps) ==> p in ps
  {
    if ps != [] {
      ForestShape(Init(ps));
      if !Joined(Init(ps), Last(ps).a, Last(ps).b) {
        assert Init(Forest(ps)) == Forest(Init(ps)) && Last(Forest(ps)) == Last(ps);
      }
    }
  }

  /** Later links never displace an earlier link of the forest. */
  lemma {:induction false} ForestGrows(ps: seq<Pair>, more: seq<Pair>)
    ensures Forest(ps) <= Forest(ps + more)
  {
    if more == [] {
      assert ps + more == ps;
    } else {
      assert Init(ps + more) == ps + Init(more);
      ForestGrows(ps, Init(more));
    }
  }

  lemma {:induction false} AcyclicPrefix(ts: seq<Pair>, more: seq<Pair>)
    requires Acyclic(ts + more)
    ensures Acyclic(ts)
  {
    if more == [] {
      assert ts + more == ts;
    } else {
      assert Init(ts + more) == ts + Init(more);
      AcyclicPrefix(ts, Init(more));
    }
  }

  /** Names already joined keep their path when links are added. */
  lemma {:induction false} TreePathStable(ts: seq<Pair>, more: seq<Pair>, x: string, y: string)
    requires Joined(ts, x, y)
    ensures Joined(ts + more, x, y)
    ensures TreePath(ts + more, x, y) == TreePath(ts, x, y)
  {
    if more == [] {
      assert ts + more == ts;
    } else {
      assert Init(ts + more) == ts + Init(more);
      TreePathStable(ts, Init(more), x, y);
    }
  }

  lemma {:induction false} TreePathInside(ts: seq<Pair>, x: string, y: string)
    requires Joined(ts, x, y)
    ensures TreePath(ts, x, y) <= Elements(ts)
  {
    if ts != [] {
      var i, p := Init(ts), Last(ts);
      assert Elements(i) <= Elements(ts) && p in Elements(ts);
      if Joined(i, x, y) {
        TreePathInside(i, x, y);
      } else if Joined(i, x, p.a) {
        TreePathInside(i, x, p.a);
        TreePathInside(i, p.b, y);
      } else {
        TreePathInside(i, x, p.b);
        TreePathInside(i, p.a, y);
      }
    }
  }

  /** The path can be walked. */
  lemma {:induction false} TreePathWalk(ts: seq<Pair>, x: string, y: string) returns (w: seq<Pair>)
    requires Joined(ts, x, y)
    ensures Walk(ts, x, w, y)
    ensures Elements(w) == TreePath(ts, x, y)
  {
    if ts == [] {
      w := [];
    } else {
      var i, p := Init(ts), Last(ts);
      if Joined(i, x, y) {
        w := TreePathWalk(i, x, y);
        LiftWalk(ts, x, w, y);
      } else {
        var near, far := if Joined(i, x, p.a) then p.a else p.b, if Joined(i, x, p.a) then p.b else p.a;
        var w1 := TreePathWalk(i, x, near);
        var w2 := TreePathWalk(i, far, y);
        LiftWalk(ts, x, w1, near);
        LiftWalk(ts, far, w2, y);
        WalkStep(ts, x, w1, near, p, far);
        WalkJoin(ts, x, w1 + [p], far, w2, y);
        w := w1 + [p] + w2;
        assert Elements(w) == Elements(w1) + {p} + Elements(w2);
      }
    }
  }

  /** A walk that may cross the last link p splits into walks that do not. */
  lemma {:induction false} SplitWalk(i: seq<Pair>, p: Pair, x: string, w: seq<Pair>, y: string)
    returns (w1: seq<Pair>, w2: seq<Pair>)
    requires Walk(i + [p], x, w, y)
    requires !Joined(i, p.a, p.b)
    ensures Elements(w1) <= Elements(w) && Elements(w2) <= Elements(w)
    ensures Joined(i, x, y) ==> Walk(i, x, w1, y)
    ensures !Joined(i, x, y) ==>
              p in w &&
              ((Joined(i, x, p.a) && Walk(i, x, w1, p.a) && Walk(i, p.b, w2, y)) ||
               (Joined(i, x, p.b) && Walk(i, x, w1, p.b) && Walk(i, p.a, w2, y)))
  {
    w1, w2 := [], [];
    if w != [] {
      var q := Last(w);
      var u := if q.b == y && Walk(i + [p], x, Init(w), q.a) then q.a else q.b;
      var v1, v2 := SplitWalk(i, p, x, Init(w), u);
      assert Elements(Init(w)) <= Elements(w) && q in Elements(w);
      if Joined(i, x, u) {
        WalkJoins(i, x, v1, u);
      }
      if q == p {
        if Joined(i, x, u) {
          w1 := v1;
        } else {
          var near := if Walk(i, x, v1, p.a) && Walk(i, p.b, v2, u) && Joined(i, x, p.a) then p.a else p.b;
          WalkJoins(i, x, v1, near);
          WalkJoins(i, if near == p.a then p.b else p.a, v2, u);
          w1 := v1;
        }
      } else {
        assert q in i;
        LinkJoins(i, q);
        if Joined(i, x, u) {
          WalkStep(i, x, v1, u, q, y);
          w1 := v1 + [q];
        } else {
          w1 := v1;
          w2 := v2 + [q];
          if Joined(i, x, p.a) && Walk(i, x, v1, p.a) && Walk(i, p.b, v2, u) {
            WalkStep(i, p.b, v2, u, q, y);
          } else {
            WalkStep(i, p.a, v2, u, q, y);
          }
        }
      }
    }
  }

  /** No walk between two names avoids a link of their path. */
  lemma {:induction false} EveryWalkCoversTreePath(ts: seq<Pair>, x: string, w: seq<Pair>, y: string)
    requires Acyclic(ts)
    requires Walk(ts, x, w, y)
    ensures Joined(ts, x, y)
    ensures TreePath(ts, x, y) <= Elements(w)
  {
    WalkJoins(ts, x, w, y);
    if ts != [] {
      var i, p := Init(ts), Last(ts);
      assert ts == i + [p];
      var w1, w2 := SplitWalk(i, p, x, w, y);
      if Joined(i, x, y) {
        EveryWalkCoversTreePath(i, x, w1, y);
      } else if Joined(i, x, p.a) {
        EveryWalkCoversTreePath(i, x, w1, p.a);
        EveryWalkCoversTreePath(i, p.b, w2, y);
      } else {
        EveryWalkCoversTreePath(i, x, w1, p.b);
        EveryWalkCoversTreePath(i, p.a, w2, y);
      }
    }
  }

  lemma {:induction false} AcyclicEndsDiffer(ts: seq<Pair>, p: Pair)
    requires Acyclic(ts) && p in ts
    ensures p.a != p.b
  {
    if p != Last(ts) {
      AcyclicEndsDiffer(Init(ts), p);
    }
  }

  /** Each link of the forest is a bridge: every walk between its ends crosses it. */
  lemma Bridge(ts: seq<Pair>, p: Pair, u: string, w: seq<Pair>, v: string)
    requires Acyclic(ts) && p in ts && p.Links(u, v)
    requires Walk(ts, u, w, v)
    ensures p in w
  {
    AcyclicEndsDiffer(ts, p);
    WalkStep(ts, u, [], u, p, v);
    EveryWalkCoversTreePath(ts, u, [] + [p], v);
    var t := TreePathWalk(ts, u, v);
    assert t != [];
    assert Last(t) in Elements(t);
    assert p in TreePath(ts, u, v);
    EveryWalkCoversTreePath(ts, u, w, v);
  }

  /** Walking outwards from r: a link not yet on the path to u extends that path by itself. */
  lemma TreeStep(ts: seq<Pair>, p: Pair, r: string, u: string, v: string)
    requires Acyclic(ts) && p in ts && p.Links(u, v)
    requires Joined(ts, r, u) && p !in TreePath(ts, r, u)
    ensures Joined(ts, r, v)
    ensures TreePath(ts, r, v) == TreePath(ts, r, u) + {p}
  {
    var wu := TreePathWalk(ts, r, u);
    WalkStep(ts, r, wu, u, p, v);
    EveryWalkCoversTreePath(ts, r, wu + [p], v);
    assert Elements(wu + [p]) == Elements(wu) + {p};

    var wv := TreePathWalk(ts, r, v);
    WalkStep(ts, r, wv, v, p, u);
    EveryWalkCoversTreePath(ts, r, wv + [p], u);
    assert Elements(wv + [p]) == Elements(wv) + {p};

    var back := WalkBack(ts, r, wu, u);
    WalkJoin(ts, u, back, r, wv, v);
    Bridge(ts, p, u, back + wv, v);
    assert p in Elements(back) || p in Elements(wv);
  }

  // ---------- counting ----------

  /** The representatives among the names of vs. */
  ghost function Representatives(ps: seq<Pair>, vs: set<string>): set<string> {
    set x | x in vs && Label(ps, x) == x
  }

  lemma {:induction false} LabelInside(ps: seq<Pair>, vs: set<string>, x: string)
    requires forall p :: p in ps ==> p.a in vs && p.b in vs
    requires x in vs
    ensures Label(ps, x) in vs
  {
    if ps != [] {
      LabelInside(Init(ps), vs, x);
      LabelInside(Init(ps), vs, Last(ps).a);
    }
  }

  /** A forest has exactly as many links as names that lost their own set. */
  lemma {:induction false} ForestCount(ps: seq<Pair>, vs: set<string>)
    requires forall p :: p in ps ==> p.a in vs && p.b in vs
    ensures |Forest(ps)| + |Representatives(ps, vs)| == |vs|
  {
    if ps == [] {
      assert Representatives(ps, vs) == vs;
    } else {
      var i, p := Init(ps), Last(ps);
      ForestCount(i, vs);
      if Joined(i, p.a, p.b) {
        assert Representatives(ps, vs) == Representatives(i, vs);
      } else {
        var lost := Label(i, p.b);
        LabelIdempotent(i, p.b);
        LabelIdempotent(i, p.a);
        LabelInside(i, vs, p.b);
        assert Representatives(i, vs) == Representatives(ps, vs) + {lost};
      }
    }
  }
}
