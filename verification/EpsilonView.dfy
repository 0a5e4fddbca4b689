/**
 Queries at a threshold so low that the tables are read instead of a replay: when the answer from
 all active rows is the answer from the rows at or above the threshold.
 */
module EpsilonView {
  import opened Sequences
  import opened Domain
  import opened Aggregates
  import opened Connectivity
  import opened Tree
  import opened ReplaySpec
  import opened ReplayPartition
  import opened ReplayConfidence
  import opened ReplayLocality
  import opened ReplayAppend
  import opened ClusterTables

  // ---------- the identifier ----------

  /** Both placements name one cluster, or neither names any. */
  predicate SameId(a: Option<MembershipRow>, b: Option<MembershipRow>) {
    (a.Some? <==> b.Some?) && (a.Some? && b.Some? ==> a.value.clusterId == b.value.clusterId)
  }

  ghost predicate SameIds(es: seq<MergeEvidence>, fs: seq<MergeEvidence>) {
    forall x :: SameId(Placement(es, x), Placement(fs, x))
  }

  /** Each useful row below t joins two addresses that the other rows join. */
  ghost predicate WeakRowsAreRedundant(es: seq<MergeEvidence>, t: real) {
    forall e :: e in es && Useful(e) && e.claim.confidence < t ==>
      Together(Above(es, t), e.claim.addressA, e.claim.addressB)
  }

  /** The first rows inside c name the same address first. */
  ghost predicate KeepsOpener(es: seq<MergeEvidence>, fs: seq<MergeEvidence>, c: set<string>) {
    Opener(es, c).Some? && Opener(fs, c).Some? &&
    Opener(es, c).value.claim.addressA == Opener(fs, c).value.claim.addressA
  }

  lemma SameIdsGroupAlike(es: seq<MergeEvidence>, fs: seq<MergeEvidence>, x: string, y: string)
    requires SameIds(es, fs)
    ensures Together(es, x, y) <==> Together(fs, x, y)
  {
    SamePlacementIffTogether(es, x, y);
    SamePlacementIffTogether(fs, x, y);
    assert SameId(Placement(es, x), Placement(fs, x)) && SameId(Placement(es, y), Placement(fs, y));
  }

  lemma SameMembers(es: seq<MergeEvidence>, fs: seq<MergeEvidence>, k: Cluster, l: Cluster, x: string)
    requires forall y, z :: Together(es, y, z) <==> Together(fs, y, z)
    requires k in Clusters(es) && l in Clusters(fs) && x in k.members && x in l.members
    ensures k.members.Keys == l.members.Keys
  {
    ClustersPartitionTouched(es);
    ClustersPartitionTouched(fs);
    forall y
      ensures y in k.members <==> y in l.members
    {
      assert y in k.members <==> Together(es, x, y);
      assert y in l.members <==> Together(fs, x, y);
    }
  }

  /** Where the groupings agree, an address gets one identifier exactly if its cluster keeps its
      opener. */
  lemma SameIdIffKeepsOpener(es: seq<MergeEvidence>, fs: seq<MergeEvidence>, k: Cluster, x: string)
    requires forall y, z :: Together(es, y, z) <==> Together(fs, y, z)
    requires k in Clusters(es) && x in k.members
    ensures SameId(Placement(es, x), Placement(fs, x)) <==> KeepsOpener(es, fs, k.members.Keys)
  {
    assert Together(es, x, x);
    var l :| l in Clusters(fs) && x in l.members;
    SameMembers(es, fs, k, l, x);
    IdFollowsOpener(es, fs, k, l);
    PlacementReadsCluster(es, x);
    PlacementReadsCluster(fs, x);
  }

  lemma UnplacedAlike(es: seq<MergeEvidence>, fs: seq<MergeEvidence>, x: string)
    requires forall y, z :: Together(es, y, z) <==> Together(fs, y, z)
    requires Placement(es, x).None?
    ensures Placement(fs, x).None?
  {
    PlacementReadsCluster(es, x);
    PlacementReadsCluster(fs, x);
    ClustersPartitionTouched(es);
    ClustersPartitionTouched(fs);
    assert Together(es, x, x) <==> Together(fs, x, x);
  }

  /** Exactly when all rows and the rows at or above t name one cluster for every address: when each
      weaker row is redundant, and the first row inside each cluster names the same address first
      with and without the weaker rows. */
  lemma ViewsNameAlikeIff(es: seq<MergeEvidence>, t: real)
    ensures SameIds(es, Above(es, t)) <==>
            WeakRowsAreRedundant(es, t) && forall k :: k in Clusters(es) ==> KeepsOpener(es, Above(es, t), k.members.Keys)
  {
    var fs := Above(es, t);
    ViewsAgreeIffWeakRowsAreRedundant(es, t);
    if SameIds(es, fs) {
      forall x, y
        ensures Together(es, x, y) <==> Together(fs, x, y)
      {
        SameIdsGroupAlike(es, fs, x, y);
      }
      forall k | k in Clusters(es)
        ensures KeepsOpener(es, fs, k.members.Keys)
      {
        ClusterShape(Live(es), k);
        SameIdIffKeepsOpener(es, fs, k, k.anchor);
      }
    }
    if WeakRowsAreRedundant(es, t) && forall k :: k in Clusters(es) ==> KeepsOpener(es, fs, k.members.Keys) {
      forall x
        ensures SameId(Placement(es, x), Placement(fs, x))
      {
        PlacementReadsCluster(es, x);
        ClustersPartitionTouched(es);
        if Placement(es, x).None? {
          UnplacedAlike(es, fs, x);
        } else {
          var k :| k in Clusters(es) && x in k.members;
          SameIdIffKeepsOpener(es, fs, k, x);
        }
      }
    }
  }

  // ---------- an input at which it fails ----------

  lemma TwoRowLog(e: MergeEvidence, f: MergeEvidence, keep: MergeEvidence -> bool)
    requires keep(e) && keep(f)
    ensures Filter([e, f], keep) == [e, f]
  {
    FilterAll([e, f], keep);
  }

  lemma SecondRowOnly(e: MergeEvidence, f: MergeEvidence, keep: MergeEvidence -> bool)
    requires !keep(e) && keep(f)
    ensures Filter([e, f], keep) == [f]
  {
    assert [e, f] == [e] + [f];
    FilterAppend([e], [f], keep);
    FilterNone([e], keep);
    FilterAll([f], keep);
  }

  /** The first of two rows on one pair gives the identifier. */
  lemma FirstRowNames(e: MergeEvidence, f: MergeEvidence)
    requires Useful(e) && Useful(f) && f.claim.addressA == e.claim.addressB && f.claim.addressB == e.claim.addressA
    ensures NamesCluster([e, f], e.claim.addressA, e.claim.addressA)
  {
    var es := [e, f];
    RowTogether(es, e);
    var k :| k in Clusters(es) && e.claim.addressA in k.members && e.claim.addressB in k.members;
    TwoRowLog(e, f, Useful);
    TwoRowLog(e, f, RowIn(k.members.Keys));
    AnchorIsOpener(es, k);
    PlacementReadsCluster(es, e.claim.addressA);
  }

  lemma OnlyRowNames(e: MergeEvidence)
    requires Useful(e)
    ensures NamesCluster([e], e.claim.addressB, e.claim.addressA)
  {
    var k := OnlyCluster(e);
    PlacementReadsCluster([e], e.claim.addressB);
  }

  lemma WeakFirstRowMisnames(e: MergeEvidence, f: MergeEvidence, t: real)
    requires Useful(e) && Useful(f) && f.claim.addressA == e.claim.addressB && f.claim.addressB == e.claim.addressA
    requires e.claim.confidence < t <= f.claim.confidence
    ensures Above([e, f], t) == [f] && WeakRowsAreRedundant([e, f], t)
  {
    SecondRowOnly(e, f, AtLeast(t));
    RowTogether([f], f);
    ClusterSymmetric([f], f.claim.addressA, f.claim.addressB);
  }

  lemma Misnames(e: MergeEvidence, f: MergeEvidence, t: real)
    requires Useful(e) && Useful(f) && f.claim.addressA == e.claim.addressB && f.claim.addressB == e.claim.addressA
    requires e.claim.confidence < t <= f.claim.confidence
    ensures WeakRowsAreRedundant([e, f], t)
    ensures NamesCluster([e, f], e.claim.addressA, e.claim.addressA)
    ensures NamesCluster(Above([e, f], t), e.claim.addressA, f.claim.addressA)
  {
    WeakFirstRowMisnames(e, f, t);
    FirstRowNames(e, f);
    OnlyRowNames(f);
  }

  /** The cluster of x is named after anchor. */
  ghost predicate NamesCluster(es: seq<MergeEvidence>, x: string, anchor: string) {
    Placement(es, x).Some? && Placement(es, x).value.clusterId == Derived(anchor)
  }

  /** A denial at confidence zero recorded before a claim on the same pair the other way round: at any
      threshold up to the claim's confidence the groupings agree, yet the tables name one cluster and
      the view another. */
  lemma TablesMisnameView(t: real) returns (es: seq<MergeEvidence>)
    requires 0.0 < t <= 0.9
    ensures InRange(es) && WeakRowsAreRedundant(es, t)
    ensures NamesCluster(es, "B", "B") && NamesCluster(Above(es, t), "B", "A") && Derived("A") != Derived("B")
  {
    var e := MergeEvidence(1, MergeCandidate("btc", "B", "A", "manual", None, None, None, 0.0), Active, None);
    var f := MergeEvidence(2, MergeCandidate("btc", "A", "B", "manual", None, None, None, 0.9), Active, None);
    es := [e, f];
    Misnames(e, f, t);
    assert Derived("A").anchor != Derived("B").anchor;
  }

  lemma ClusterSymmetric(es: seq<MergeEvidence>, x: string, y: string)
    requires Together(es, x, y)
    ensures Together(es, y, x)
  {
  }

  // ---------- the whole answer ----------

  /** Where all answers agree, every member recorded in the tables meets the threshold. */
  lemma SameAnswersMeetThreshold(es: seq<MergeEvidence>, t: real, k: Cluster, x: string)
    requires InRange(es) && k in Clusters(es) && x in k.members
    requires Placement(Above(es, t), x) == Placement(es, x)
    ensures k.members[x] >= t
  {
    PlacementReadsCluster(es, x);
    PlacementReadsCluster(Above(es, t), x);
    ClustersPartitionTouched(Above(es, t));
    var l :| l in Clusters(Above(es, t)) && x in l.members;
    ViewMeetsThreshold(es, t, l, x);
  }

  /** Without a useful row below t there is no difference at all. */
  lemma NoWeakRowNoDifference(es: seq<MergeEvidence>, t: real, x: string)
    requires forall e :: e in es && Useful(e) ==> e.claim.confidence >= t
    ensures Clusters(Above(es, t)) == Clusters(es) && Placement(Above(es, t), x) == Placement(es, x)
  {
    FilterTwice(es, AtLeast(t), Useful);
    FilterElements(es, Useful);
    FilterAll(Live(es), AtLeast(t));
  }

  lemma {:induction false} ZeroRowsAddNoStrength(rs: seq<MergeEvidence>, t: real, p: Pair)
    requires 0.0 < t && forall e :: e in rs && e.claim.confidence < t ==> e.claim.confidence == 0.0
    ensures forall k :: k in BySource(rs, p) ==> BySource(rs, p)[k] >= 0.0
    ensures DropsZeros(BySource(rs, p), BySource(Filter(rs, AtLeast(t)), p))
  {
    if rs != [] {
      InitElements(rs);
      ZeroRowsAddNoStrength(Init(rs), t, p);
      if AtLeast(t)(Last(rs)) {
        InitOfAppend(Filter(Init(rs), AtLeast(t)), Last(rs));
      }
    }
  }

  /** Weaker rows of confidence zero make no difference to any answer, confidences included, as long
      as they change neither the order of the addresses nor the links that are kept. */
  lemma ZeroRowsMakeNoDifference(es: seq<MergeEvidence>, t: real, x: string)
    requires 0.0 < t && forall e :: e in es && Useful(e) && e.claim.confidence < t ==> e.claim.confidence == 0.0
    requires FirstSeen(Live(Above(es, t))) == FirstSeen(Live(es)) && Spanning(Live(Above(es, t))) == Spanning(Live(es))
    ensures Clusters(Above(es, t)) == Clusters(es) && Placement(Above(es, t), x) == Placement(es, x)
  {
    var rs, qs := Live(es), Live(Above(es, t));
    FilterTwice(es, AtLeast(t), Useful);
    FilterElements(es, Useful);
    forall p
      ensures Strength(qs, p) == Strength(rs, p)
    {
      ZeroRowsAddNoStrength(rs, t, p);
      ComplementIgnoresZeros(BySource(rs, p), BySource(qs, p));
    }
    SameDerivation(rs, qs);
    SameConfidence(rs, qs, x);
  }

  /** Each row below t joins two addresses that the rows at or above t before it already join. */
  ghost predicate JoinedBefore(rs: seq<MergeEvidence>, t: real) {
    rs == [] ||
    (JoinedBefore(Init(rs), t) && (Last(rs).claim.confidence < t ==> AlreadyJoined(Filter(Init(rs), AtLeast(t)), Last(rs))))
  }

  ghost predicate AlreadyJoined(rs: seq<MergeEvidence>, e: MergeEvidence) {
    e.claim.addressA in FirstSeen(rs) && e.claim.addressB in FirstSeen(rs) &&
    Joined(PairOrder(rs), e.claim.addressA, e.claim.addressB)
  }

  /** A row between addresses already joined adds no address and no kept link. */
  lemma JoinedRowAddsNothing(rs: seq<MergeEvidence>, e: MergeEvidence)
    requires AlreadyJoined(rs, e)
    ensures FirstSeen(rs + [e]) == FirstSeen(rs) && Spanning(rs + [e]) == Spanning(rs)
  {
    InitOfAppend(rs, e);
    SpanStep(rs, e);
    ForestShape(PairOrder(rs));
    RowLinks(e);
    assert Joined(Spanning(rs), e.claim.addressA, e.claim.addressB);
  }

  /** A further row keeps the same link on top of two logs with the same kept links. */
  lemma SpanNext(rs: seq<MergeEvidence>, qs: seq<MergeEvidence>, e: MergeEvidence)
    requires Spanning(qs) == Spanning(rs)
    ensures Spanning(qs + [e]) == Spanning(rs + [e])
  {
    InitOfAppend(rs, e);
    InitOfAppend(qs, e);
    ForestShape(PairOrder(rs));
    ForestShape(PairOrder(qs));
    SpanStep(rs, e);
    SpanStep(qs, e);
  }

  lemma SpanStep(rs: seq<MergeEvidence>, e: MergeEvidence)
    ensures var p := RowPair(e);
            Spanning(rs + [e]) == if Joined(Spanning(rs), p.a, p.b) then Spanning(rs) else Spanning(rs) + [p]
  {
    var p := RowPair(e);
    InitOfAppend(rs, e);
    ForestShape(PairOrder(rs));
    if p in PairOrder(rs) {
      LinkJoins(PairOrder(rs), p);
    } else {
      InitOfAppend(PairOrder(rs), p);
    }
  }

  /** What the stronger rows already join, all rows join. */
  lemma JoinedInBoth(rs: seq<MergeEvidence>, qs: seq<MergeEvidence>, e: MergeEvidence)
    requires FirstSeen(qs) == FirstSeen(rs) && Spanning(qs) == Spanning(rs) && AlreadyJoined(qs, e)
    ensures AlreadyJoined(rs, e)
  {
    ForestShape(PairOrder(qs));
    ForestShape(PairOrder(rs));
    assert Joined(Spanning(qs), e.claim.addressA, e.claim.addressB);
  }

  lemma SeenNext(rs: seq<MergeEvidence>, qs: seq<MergeEvidence>, e: MergeEvidence)
    requires FirstSeen(qs) == FirstSeen(rs)
    ensures FirstSeen(qs + [e]) == FirstSeen(rs + [e])
  {
    InitOfAppend(rs, e);
    InitOfAppend(qs, e);
  }

  /** The two logs order the addresses alike and keep the same links. */
  ghost predicate SpansAlike(rs: seq<MergeEvidence>, qs: seq<MergeEvidence>) {
    FirstSeen(qs) == FirstSeen(rs) && Spanning(qs) == Spanning(rs)
  }

  lemma StrongNext(rs: seq<MergeEvidence>, qs: seq<MergeEvidence>)
    requires rs != [] && SpansAlike(Init(rs), qs)
    ensures SpansAlike(rs, qs + [Last(rs)])
  {
    assert rs == Init(rs) + [Last(rs)];
    SpanNext(Init(rs), qs, Last(rs));
    SeenNext(Init(rs), qs, Last(rs));
  }

  lemma WeakAppended(rs: seq<MergeEvidence>, qs: seq<MergeEvidence>, e: MergeEvidence)
    requires SpansAlike(rs, qs) && AlreadyJoined(qs, e)
    ensures SpansAlike(rs + [e], qs)
  {
    JoinedInBoth(rs, qs, e);
    JoinedRowAddsNothing(rs, e);
  }

  lemma WeakNext(rs: seq<MergeEvidence>, qs: seq<MergeEvidence>)
    requires rs != [] && SpansAlike(Init(rs), qs) && AlreadyJoined(qs, Last(rs))
    ensures SpansAlike(rs, qs)
  {
    WeakAppended(Init(rs), qs, Last(rs));
    SplitLast(rs);
  }

  lemma FilterNext(rs: seq<MergeEvidence>, t: real)
    requires rs != []
    ensures Filter(rs, AtLeast(t)) ==
            if Last(rs).claim.confidence < t then Filter(Init(rs), AtLeast(t)) else Filter(Init(rs), AtLeast(t)) + [Last(rs)]
  {
  }

  lemma {:induction false} JoinedRowsKeepSpan(rs: seq<MergeEvidence>, t: real)
    requires JoinedBefore(rs, t)
    ensures SpansAlike(rs, Filter(rs, AtLeast(t)))
  {
    if rs != [] {
      JoinedRowsKeepSpan(Init(rs), t);
      FilterNext(rs, t);
      if Last(rs).claim.confidence < t {
        WeakNext(rs, Filter(Init(rs), AtLeast(t)));
      } else {
        StrongNext(rs, Filter(Init(rs), AtLeast(t)));
      }
    }
  }

  /** Denials at confidence zero between addresses that earlier rows already join make no difference to
      any answer. */
  lemma DenialsAmongJoinedMakeNoDifference(es: seq<MergeEvidence>, t: real, x: string)
    requires 0.0 < t && forall e :: e in es && Useful(e) && e.claim.confidence < t ==> e.claim.confidence == 0.0
    requires JoinedBefore(Live(es), t)
    ensures Clusters(Above(es, t)) == Clusters(es) && Placement(Above(es, t), x) == Placement(es, x)
  {
    FilterTwice(es, AtLeast(t), Useful);
    JoinedRowsKeepSpan(Live(es), t);
    ZeroRowsMakeNoDifference(es, t, x);
  }
}
