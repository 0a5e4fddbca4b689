/**
 Which addresses replay puts together: exactly those that a chain of useful rows connects.
 */
module ReplayPartition {
  import opened Sequences
  import opened Domain
  import opened Connectivity
  import opened Tree
  import opened ReplaySpec

  ghost predicate Touches(e: MergeEvidence, x: string) {
    e.claim.addressA == x || e.claim.addressB == x
  }

  /** Some useful row of es names x. */
  ghost predicate Touched(es: seq<MergeEvidence>, x: string) {
    exists e :: e in es && Useful(e) && Touches(e, x)
  }

  /** w leads from x to y, each step crossing one useful row of es. */
  ghost predicate Chain(es: seq<MergeEvidence>, x: string, w: seq<MergeEvidence>, y: string) {
    if w == [] then x == y
    else
      Last(w) in es && Useful(Last(w)) &&
      ((Last(w).claim.addressB == y && Chain(es, x, Init(w), Last(w).claim.addressA)) ||
       (Last(w).claim.addressA == y && Chain(es, x, Init(w), Last(w).claim.addressB)))
  }

  ghost predicate Chained(es: seq<MergeEvidence>, x: string, w: seq<MergeEvidence>, y: string) {
    Chain(es, x, w, y)
  }

  ghost predicate Together(es: seq<MergeEvidence>, x: string, y: string) {
    exists k :: k in Clusters(es) && x in k.members && y in k.members
  }

  // ---------- clusters and their members ----------

  lemma ClusterShape(rs: seq<MergeEvidence>, k: Cluster)
    requires k in ClustersOf(rs)
    ensures k == ClusterAt(rs, k.anchor)
    ensures k.anchor in FirstSeen(rs) && k.anchor in k.members && Anchor(rs, k.anchor) == k.anchor
    ensures forall x :: x in k.members <==> x in FirstSeen(rs) && Anchor(rs, x) == k.anchor
  {
    var x :| x in Elements(FirstSeen(rs)) && k == ClusterAt(rs, Anchor(rs, x));
    AnchorFacts(rs, x);
  }

  lemma ClusterOfMember(rs: seq<MergeEvidence>, x: string)
    requires x in FirstSeen(rs)
    ensures ClusterAt(rs, Anchor(rs, x)) in ClustersOf(rs)
    ensures x in ClusterAt(rs, Anchor(rs, x)).members
  {
    assert x in Elements(FirstSeen(rs));
  }

  lemma TogetherIffJoined(es: seq<MergeEvidence>, x: string, y: string)
    ensures Together(es, x, y) <==>
            x in FirstSeen(Live(es)) && y in FirstSeen(Live(es)) && Joined(PairOrder(Live(es)), x, y)
  {
    var rs := Live(es);
    if Together(es, x, y) {
      var k :| k in Clusters(es) && x in k.members && y in k.members;
      ClusterShape(rs, k);
      AnchorFacts(rs, x);
    }
    if x in FirstSeen(rs) && y in FirstSeen(rs) && Joined(PairOrder(rs), x, y) {
      AnchorFacts(rs, x);
      ClusterOfMember(rs, x);
      ClusterOfMember(rs, y);
    }
  }

  lemma TouchedIffSeen(es: seq<MergeEvidence>, x: string)
    ensures Touched(es, x) <==> x in FirstSeen(Live(es))
  {
    FilterElements(es, Useful);
    FirstSeenFacts(Live(es));
    if Touched(es, x) {
      var e :| e in es && Useful(e) && Touches(e, x);
      assert e in Live(es);
    }
    if x in FirstSeen(Live(es)) {
      var e :| e in Live(es) && (e.claim.addressA == x || e.claim.addressB == x);
      assert Touches(e, x);
    }
  }

  // ---------- chains of rows ----------

  lemma RowJoins(es: seq<MergeEvidence>, e: MergeEvidence)
    requires e in es && Useful(e)
    ensures Joined(PairOrder(Live(es)), e.claim.addressA, e.claim.addressB)
    ensures RowPair(e) in PairOrder(Live(es))
  {
    FilterElements(es, Useful);
    PairOrderFacts(Live(es));
    LinkJoins(PairOrder(Live(es)), RowPair(e));
  }

  lemma {:induction false} ChainJoins(es: seq<MergeEvidence>, x: string, w: seq<MergeEvidence>, y: string)
    requires Chain(es, x, w, y)
    ensures Joined(PairOrder(Live(es)), x, y)
  {
    if w != [] {
      var e := Last(w);
      RowJoins(es, e);
      if e.claim.addressB == y && Chain(es, x, Init(w), e.claim.addressA) {
        ChainJoins(es, x, Init(w), e.claim.addressA);
      } else {
        ChainJoins(es, x, Init(w), e.claim.addressB);
      }
    }
  }

  lemma RowLinks(e: MergeEvidence)
    ensures RowPair(e).Links(e.claim.addressA, e.claim.addressB)
  {
  }

  lemma {:induction false} WalkIsChain(es: seq<MergeEvidence>, x: string, v: seq<Pair>, y: string) returns (w: seq<MergeEvidence>)
    requires Walk(PairOrder(Live(es)), x, v, y)
    ensures Chain(es, x, w, y)
  {
    if v == [] {
      w := [];
    } else {
      var p := Last(v);
      FilterElements(es, Useful);
      PairOrderFacts(Live(es));
      var e :| e in Live(es) && RowPair(e) == p;
      var u := if p.b == y && Walk(PairOrder(Live(es)), x, Init(v), p.a) then p.a else p.b;
      var w0 := WalkIsChain(es, x, Init(v), u);
      RowLinks(e);
      InitOfAppend(w0, e);
      w := w0 + [e];
    }
  }

  /** Two addresses end up in one cluster exactly when a chain of active rows between distinct
      addresses connects them. */
  lemma SameClusterIffChain(es: seq<MergeEvidence>, x: string, y: string)
    ensures Together(es, x, y) <==> Touched(es, x) && Touched(es, y) && exists w :: Chained(es, x, w, y)
  {
    TogetherIffJoined(es, x, y);
    TouchedIffSeen(es, x);
    TouchedIffSeen(es, y);
    if Joined(PairOrder(Live(es)), x, y) {
      var v := JoinedHasWalk(PairOrder(Live(es)), x, y);
      var w := WalkIsChain(es, x, v, y);
      assert Chained(es, x, w, y);
    } else if exists w :: Chained(es, x, w, y) {
      var w :| Chained(es, x, w, y);
      ChainJoins(es, x, w, y);
    }
  }

  lemma RowTogether(es: seq<MergeEvidence>, e: MergeEvidence)
    requires e in es && Useful(e)
    ensures Together(es, e.claim.addressA, e.claim.addressB)
  {
    RowJoins(es, e);
    TogetherIffJoined(es, e.claim.addressA, e.claim.addressB);
    TouchedIffSeen(es, e.claim.addressA);
    TouchedIffSeen(es, e.claim.addressB);
    assert Touches(e, e.claim.addressA) && Touches(e, e.claim.addressB);
  }

  /** The clusters split the touched addresses: each lies in exactly one, and nothing else in any. */
  lemma ClustersPartitionTouched(es: seq<MergeEvidence>)
    ensures forall x :: Touched(es, x) <==> exists k :: k in Clusters(es) && x in k.members
    ensures forall k, l :: k in Clusters(es) && l in Clusters(es) && k != l ==> k.members.Keys !! l.members.Keys
  {
    var rs := Live(es);
    forall x
      ensures Touched(es, x) <==> exists k :: k in Clusters(es) && x in k.members
    {
      TouchedIffSeen(es, x);
      if x in FirstSeen(rs) {
        ClusterOfMember(rs, x);
      }
      if k :| k in Clusters(es) && x in k.members {
        ClusterShape(rs, k);
      }
    }
    forall k, l | k in Clusters(es) && l in Clusters(es) && k != l
      ensures k.members.Keys !! l.members.Keys
    {
      ClusterShape(rs, k);
      ClusterShape(rs, l);
    }
  }

  /** Reordering or repeating rows, or changing their confidences, never regroups addresses: only
      the set of connected pairs matters. */
  lemma PartitionIgnoresOrder(es: seq<MergeEvidence>, fs: seq<MergeEvidence>, x: string, y: string)
    requires forall e :: e in es && Useful(e) ==> exists f :: f in fs && Useful(f) && RowPair(f) == RowPair(e)
    requires Together(es, x, y)
    ensures Together(fs, x, y)
  {
    var ps, qs := PairOrder(Live(es)), PairOrder(Live(fs));
    TogetherIffJoined(es, x, y);
    TogetherIffJoined(fs, x, y);
    FilterElements(es, Useful);
    PairOrderFacts(Live(es));
    forall p | p in ps
      ensures p in qs
    {
      var e :| e in Live(es) && RowPair(e) == p;
      var f :| f in fs && Useful(f) && RowPair(f) == p;
      RowJoins(fs, f);
    }
    assert Elements(ps) <= Elements(qs);
    JoinedMonotone(ps, qs, x, y);
    SeenCarriesOver(es, fs, x);
    SeenCarriesOver(es, fs, y);
  }

  lemma SeenCarriesOver(es: seq<MergeEvidence>, fs: seq<MergeEvidence>, x: string)
    requires forall e :: e in es && Useful(e) ==> exists f :: f in fs && Useful(f) && RowPair(f) == RowPair(e)
    requires x in FirstSeen(Live(es))
    ensures x in FirstSeen(Live(fs))
  {
    TouchedIffSeen(es, x);
    TouchedIffSeen(fs, x);
    var e :| e in es && Useful(e) && Touches(e, x);
    var f :| f in fs && Useful(f) && RowPair(f) == RowPair(e);
    NormalizeIsUnordered(e.claim.addressA, e.claim.addressB, f.claim.addressA, f.claim.addressB);
    assert Touches(f, x);
  }

  // ---------- the spanning forest ----------

  ghost function ClusterFrom(rs: seq<MergeEvidence>): string -> Cluster {
    x => ClusterAt(rs, Anchor(rs, x))
  }

  /** The kept links form a forest: as many as addresses minus clusters, and each a bridge, so no
      cycle survives. */
  lemma SpanningForest(es: seq<MergeEvidence>)
    ensures |Spanning(Live(es))| + |Clusters(es)| == |FirstSeen(Live(es))|
    ensures forall p, w :: p in Spanning(Live(es)) && Walk(Spanning(Live(es)), p.a, w, p.b) ==> p in w
    ensures forall p :: p in Spanning(Live(es)) ==> p in PairOrder(Live(es))
  {
    var rs := Live(es);
    var ps, vs := PairOrder(rs), Elements(FirstSeen(rs));
    ForestShape(ps);
    forall p, w | p in Spanning(rs) && Walk(Spanning(rs), p.a, w, p.b)
      ensures p in w
    {
      Bridge(Spanning(rs), p, p.a, w, p.b);
    }
    PairOrderFacts(rs);
    FirstSeenFacts(rs);
    DistinctSize(FirstSeen(rs));
    ForestCount(ps, vs);
    forall x, y | x in Representatives(ps, vs) && y in Representatives(ps, vs) && ClusterFrom(rs)(x) == ClusterFrom(rs)(y)
      ensures x == y
    {
      AnchorFacts(rs, x);
      assert Anchor(rs, x) == Anchor(rs, y);
      assert Joined(ps, x, y);
    }
    forall k | k in ClustersOf(rs)
      ensures exists r :: r in Representatives(ps, vs) && ClusterFrom(rs)(r) == k
    {
      var x :| x in vs && k == ClusterAt(rs, Anchor(rs, x));
      var r := Label(ps, x);
      LabelIdempotent(ps, x);
      LabelInside(ps, vs, x);
      AnchorFacts(rs, x);
      assert Joined(ps, x, r);
      assert r in Representatives(ps, vs);
    }
    ImageSize(Representatives(ps, vs), ClusterFrom(rs), ClustersOf(rs));
  }
}
