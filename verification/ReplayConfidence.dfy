/**
 What a member's confidence means: the weakest link on the one path that the kept links leave
 between the member and its anchor.
 */
module ReplayConfidence {
  import opened Sequences
  import opened Domain
  import opened Connectivity
  import opened Tree
  import opened Aggregates
  import opened ReplaySpec
  import opened ReplayPartition

  /** The range that the evidence table enforces. */
  ghost predicate InRange(es: seq<MergeEvidence>) {
    forall e :: e in es ==> 0.0 <= e.claim.confidence <= 1.0
  }

  lemma {:induction false} SourcesInRange(rs: seq<MergeEvidence>, p: Pair)
    requires InRange(rs)
    ensures Probabilities(BySource(rs, p))
  {
    if rs != [] {
      InitElements(rs);
      SourcesInRange(Init(rs), p);
    }
  }

  lemma StrengthInUnit(rs: seq<MergeEvidence>, p: Pair)
    requires InRange(rs)
    ensures 0.0 <= Strength(rs, p) <= 1.0
  {
    SourcesInRange(rs, p);
    ComplementInUnit(BySource(rs, p));
  }

  /** Each source keeps the best confidence of its rows. */
  lemma {:induction false} SourceKeepsBest(rs: seq<MergeEvidence>, e: MergeEvidence)
    requires e in rs
    ensures SourceKey(e) in BySource(rs, RowPair(e))
    ensures BySource(rs, RowPair(e))[SourceKey(e)] >= e.claim.confidence
  {
    if e in Init(rs) {
      SourceKeepsBest(Init(rs), e);
    } else {
      assert rs == Init(rs) + [Last(rs)];
    }
  }

  /** Combining sources never falls below the best single row of the pair. */
  lemma StrengthAboveRow(rs: seq<MergeEvidence>, e: MergeEvidence)
    requires InRange(rs) && e in rs
    ensures Strength(rs, RowPair(e)) >= e.claim.confidence
  {
    SourcesInRange(rs, RowPair(e));
    SourceKeepsBest(rs, e);
    ComplementBelow(BySource(rs, RowPair(e)), SourceKey(e));
  }

  lemma WeakestAtLeast(s: set<Pair>, c: Pair -> real, floor: real)
    requires floor <= 1.0 && forall p :: p in s ==> floor <= c(p)
    ensures floor <= Weakest(s, c)
  {
    WeakestFacts(s, c);
  }

  lemma WeakestOfMore(s: set<Pair>, t: set<Pair>, c: Pair -> real)
    requires s <= t
    ensures Weakest(t, c) <= Weakest(s, c)
  {
    WeakestFacts(s, c);
    WeakestFacts(t, c);
  }

  lemma MemberOnTree(rs: seq<MergeEvidence>, k: Cluster, x: string)
    requires k in ClustersOf(rs) && x in k.members
    ensures Joined(Spanning(rs), k.anchor, x) && Acyclic(Spanning(rs))
    ensures k.members[x] == Weakest(TreePath(Spanning(rs), k.anchor, x), Strengths(rs))
    ensures TreePath(Spanning(rs), k.anchor, x) <= Elements(PairOrder(rs))
  {
    ClusterShape(rs, k);
    AnchorFacts(rs, x);
    ForestShape(PairOrder(rs));
    TreePathInside(Spanning(rs), k.anchor, x);
  }

  /** A member's confidence is the weakest link of its path to the anchor: some walk along kept
      links has it as its weakest link, and no walk along kept links does better. Hence it never
      exceeds the best bottleneck over all combined links. */
  lemma ConfidenceIsPathMinimum(es: seq<MergeEvidence>, k: Cluster, x: string)
    requires k in Clusters(es) && x in k.members
    ensures exists w :: Connects(Spanning(Live(es)), k.anchor, w, x) && Weakest(Elements(w), Strengths(Live(es))) == k.members[x]
    ensures forall w :: Connects(Spanning(Live(es)), k.anchor, w, x) ==> Weakest(Elements(w), Strengths(Live(es))) <= k.members[x]
    ensures exists w :: Connects(PairOrder(Live(es)), k.anchor, w, x) && Weakest(Elements(w), Strengths(Live(es))) >= k.members[x]
  {
    var rs := Live(es);
    var ts, c := Spanning(rs), Strengths(rs);
    MemberOnTree(rs, k, x);
    var w := TreePathWalk(ts, k.anchor, x);
    assert Connects(ts, k.anchor, w, x) && Weakest(Elements(w), c) == k.members[x];
    ForestShape(PairOrder(rs));
    WalkStaysInside(ts, k.anchor, w, x);
    WalkMonotone(ts, PairOrder(rs), k.anchor, w, x);
    assert Connects(PairOrder(rs), k.anchor, w, x);
    forall v | Connects(ts, k.anchor, v, x)
      ensures Weakest(Elements(v), c) <= k.members[x]
    {
      EveryWalkCoversTreePath(ts, k.anchor, v, x);
      WeakestOfMore(TreePath(ts, k.anchor, x), Elements(v), c);
    }
  }

  /** Confidences of rows in [0,1] give members confidences in [0,1], and the anchor gets 1. */
  lemma ConfidenceRange(es: seq<MergeEvidence>, k: Cluster, x: string)
    requires InRange(es)
    requires k in Clusters(es) && x in k.members
    ensures 0.0 <= k.members[x] <= 1.0
    ensures k.anchor in k.members && k.members[k.anchor] == 1.0
  {
    var rs := Live(es);
    FilterElements(es, Useful);
    MemberOnTree(rs, k, x);
    forall p | p in PairOrder(rs)
      ensures 0.0 <= Strengths(rs)(p)
    {
      StrengthInUnit(rs, p);
    }
    forall p | p in TreePath(Spanning(rs), k.anchor, x)
      ensures 0.0 <= Strengths(rs)(p)
    {
      assert p in Elements(PairOrder(rs));
    }
    WeakestAtLeast(TreePath(Spanning(rs), k.anchor, x), Strengths(rs), 0.0);
    WeakestFacts(TreePath(Spanning(rs), k.anchor, x), Strengths(rs));
    ClusterShape(rs, k);
    MemberOnTree(rs, k, k.anchor);
    EveryWalkCoversTreePath(Spanning(rs), k.anchor, [], k.anchor);
    assert TreePath(Spanning(rs), k.anchor, k.anchor) == {};
  }

  // ---------- threshold views ----------

  function AtLeast(t: real): MergeEvidence -> bool {
    (e: MergeEvidence) => e.claim.confidence >= t
  }

  /** The rows that a threshold view replays. */
  function Above(es: seq<MergeEvidence>, t: real): seq<MergeEvidence> {
    Filter(es, AtLeast(t))
  }

  /** A stricter view only splits clusters: whoever shares a cluster at t2 shares one at t1. */
  lemma StricterViewRefines(es: seq<MergeEvidence>, t1: real, t2: real, x: string, y: string)
    requires t1 <= t2
    requires Together(Above(es, t2), x, y)
    ensures Together(Above(es, t1), x, y)
  {
    FilterElements(es, AtLeast(t1));
    FilterElements(es, AtLeast(t2));
    PartitionIgnoresOrder(Above(es, t2), Above(es, t1), x, y);
  }

  /** No member of a threshold view is below the threshold. */
  lemma ViewMeetsThreshold(es: seq<MergeEvidence>, t: real, k: Cluster, x: string)
    requires InRange(es)
    requires k in Clusters(Above(es, t)) && x in k.members
    ensures k.members[x] >= t
  {
    var rs := Live(Above(es, t));
    FilterElements(es, AtLeast(t));
    FilterElements(Above(es, t), Useful);
    assert InRange(rs) && forall e :: e in rs ==> t <= e.claim.confidence <= 1.0;
    MembersMeetFloor(rs, t, k, x);
  }

  lemma MembersMeetFloor(rs: seq<MergeEvidence>, t: real, k: Cluster, x: string)
    requires forall e :: e in rs ==> 0.0 <= e.claim.confidence <= 1.0 && t <= e.claim.confidence
    requires k in ClustersOf(rs) && x in k.members
    ensures k.members[x] >= t
  {
    PairOrderFacts(rs);
    FirstSeenFacts(rs);
    ClusterShape(rs, k);
    MemberOnTree(rs, k, x);
    var e :| e in rs && (e.claim.addressA == k.anchor || e.claim.addressB == k.anchor);
    forall p | p in TreePath(Spanning(rs), k.anchor, x)
      ensures t <= Strengths(rs)(p)
    {
      assert p in Elements(PairOrder(rs));
      var f :| f in rs && RowPair(f) == p;
      StrengthAboveRow(rs, f);
    }
    WeakestAtLeast(TreePath(Spanning(rs), k.anchor, x), Strengths(rs), t);
  }

  /** The unfiltered view and the view at t group addresses alike exactly when every useful row
      below t joins two addresses that the rows at or above t already join. */
  lemma ViewsAgreeIffWeakRowsAreRedundant(es: seq<MergeEvidence>, t: real)
    ensures (forall x, y :: Together(es, x, y) <==> Together(Above(es, t), x, y)) <==>
            (forall e :: e in es && Useful(e) && e.claim.confidence < t ==>
                Together(Above(es, t), e.claim.addressA, e.claim.addressB))
  {
    FilterElements(es, AtLeast(t));
    forall e | e in es && Useful(e)
      ensures Together(es, e.claim.addressA, e.claim.addressB)
    {
      RowTogether(es, e);
    }
    forall x, y | Together(Above(es, t), x, y)
      ensures Together(es, x, y)
    {
      PartitionIgnoresOrder(Above(es, t), es, x, y);
    }
    if forall e :: e in es && Useful(e) && e.claim.confidence < t ==> Together(Above(es, t), e.claim.addressA, e.claim.addressB) {
      forall e | e in es && Useful(e)
        ensures Together(Above(es, t), e.claim.addressA, e.claim.addressB)
      {
        if e.claim.confidence >= t {
          RowTogether(Above(es, t), e);
        }
      }
      forall x, y | Together(es, x, y)
        ensures Together(Above(es, t), x, y)
      {
        TogetherIsLeast(es, Above(es, t), x, y);
      }
    }
  }

  /** If fs groups the two ends of every useful row of es, it groups whatever es groups. */
  lemma TogetherIsLeast(es: seq<MergeEvidence>, fs: seq<MergeEvidence>, x: string, y: string)
    requires forall e :: e in es && Useful(e) ==> Together(fs, e.claim.addressA, e.claim.addressB)
    requires Together(es, x, y)
    ensures Together(fs, x, y)
  {
    TogetherIffJoined(es, x, y);
    TogetherIffJoined(fs, x, y);
    FilterElements(es, Useful);
    PairOrderFacts(Live(es));
    forall p | p in PairOrder(Live(es))
      ensures Joined(PairOrder(Live(fs)), p.a, p.b)
    {
      var e :| e in Live(es) && RowPair(e) == p;
      TogetherIffJoined(fs, e.claim.addressA, e.claim.addressB);
      RowLinks(e);
    }
    JoinedIsLeast(PairOrder(Live(es)), PairOrder(Live(fs)), x, y);
    MemberSeen(es, fs, x);
    MemberSeen(es, fs, y);
  }

  lemma MemberSeen(es: seq<MergeEvidence>, fs: seq<MergeEvidence>, x: string)
    requires forall e :: e in es && Useful(e) ==> Together(fs, e.claim.addressA, e.claim.addressB)
    requires x in FirstSeen(Live(es))
    ensures x in FirstSeen(Live(fs))
  {
    TouchedIffSeen(es, x);
    var e :| e in es && Useful(e) && Touches(e, x);
    TogetherIffJoined(fs, e.claim.addressA, e.claim.addressB);
  }
}
