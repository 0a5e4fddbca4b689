/**
 What appending rows does to the clusters.
 */
module ReplayAppend {
  import opened Sequences
  import opened Domain
  import opened Connectivity
  import opened Tree
  import opened Aggregates
  import opened ReplaySpec
  import opened ReplayPartition
  import opened ReplayConfidence

  // ---------- growth ----------

  lemma TouchGrows<T>(s: seq<T>, x: T)
    ensures s <= Touch(s, x)
  {
  }

  lemma {:induction false} OrdersGrow(rs: seq<MergeEvidence>, more: seq<MergeEvidence>)
    ensures FirstSeen(rs) <= FirstSeen(rs + more)
    ensures PairOrder(rs) <= PairOrder(rs + more)
  {
    if more == [] {
      assert rs + more == rs;
    } else {
      assert Init(rs + more) == rs + Init(more);
      OrdersGrow(rs, Init(more));
      TouchGrows(PairOrder(rs + Init(more)), RowPair(Last(more)));
      TouchGrows(FirstSeen(rs + Init(more)), Last(more).claim.addressA);
      TouchGrows(Touch(FirstSeen(rs + Init(more)), Last(more).claim.addressA), Last(more).claim.addressB);
    }
  }

  lemma SpanningGrows(rs: seq<MergeEvidence>, more: seq<MergeEvidence>)
    ensures Spanning(rs) <= Spanning(rs + more)
  {
    OrdersGrow(rs, more);
    PrefixSplit(PairOrder(rs), PairOrder(rs + more));
    ForestGrows(PairOrder(rs), PairOrder(rs + more)[|PairOrder(rs)|..]);
  }

  lemma RaiseGrows(m: map<string, real>, p: Pair, e: MergeEvidence)
    ensures forall k :: k in m ==> k in Raise(m, p, e) && m[k] <= Raise(m, p, e)[k]
  {
  }

  lemma {:induction false} StrengthGrows(rs: seq<MergeEvidence>, more: seq<MergeEvidence>, p: Pair)
    requires InRange(rs + more)
    ensures Strength(rs, p) <= Strength(rs + more, p)
  {
    if more == [] {
      assert rs + more == rs;
    } else {
      var i := rs + Init(more);
      assert rs + more == i + [Last(more)];
      InitOfAppend(i, Last(more));
      assert forall e :: e in i ==> e in rs + more;
      StrengthGrows(rs, Init(more), p);
      SourcesInRange(i, p);
      SourcesInRange(rs + more, p);
      RaiseGrows(BySource(i, p), p, Last(more));
      ComplementAntitone(BySource(i, p), BySource(rs + more, p));
    }
  }

  lemma {:induction false} FirstJoinedPrefix(order: seq<string>, later: seq<string>, ps: seq<Pair>, x: string)
    requires FirstJoined(order, ps, x).Some?
    ensures FirstJoined(order + later, ps, x) == FirstJoined(order, ps, x)
  {
    if later == [] {
      assert order + later == order;
    } else {
      assert Init(order + later) == order + Init(later);
      FirstJoinedPrefix(order, Init(later), ps, x);
    }
  }

  lemma JoinedLater(rs: seq<MergeEvidence>, more: seq<MergeEvidence>, x: string, y: string)
    requires Joined(PairOrder(rs), x, y)
    ensures Joined(PairOrder(rs + more), x, y)
  {
    OrdersGrow(rs, more);
    PrefixSplit(PairOrder(rs), PairOrder(rs + more));
    assert Elements(PairOrder(rs)) <= Elements(PairOrder(rs + more));
    JoinedMonotone(PairOrder(rs), PairOrder(rs + more), x, y);
  }

  lemma SeenLater(rs: seq<MergeEvidence>, more: seq<MergeEvidence>, x: string)
    requires x in FirstSeen(rs)
    ensures x in FirstSeen(rs + more)
  {
    OrdersGrow(rs, more);
    PrefixSplit(FirstSeen(rs), FirstSeen(rs + more));
  }

  /** After an append the anchor of an old address is the first old address now joined to it. */
  lemma AnchorAfterAppend(rs: seq<MergeEvidence>, more: seq<MergeEvidence>, x: string) returns (k: nat)
    requires x in FirstSeen(rs)
    ensures k < |FirstSeen(rs)| && FirstSeen(rs)[k] == Anchor(rs + more, x)
    ensures Joined(PairOrder(rs + more), x, FirstSeen(rs)[k])
    ensures forall m :: 0 <= m < k ==> !Joined(PairOrder(rs + more), x, FirstSeen(rs)[m])
  {
    var order, qs := FirstSeen(rs), PairOrder(rs + more);
    FirstJoinedFacts(order, qs, x);
    assert Joined(qs, x, x);
    k :| 0 <= k < |order| && FirstJoined(order, qs, x) == Some(order[k]) && Joined(qs, x, order[k]) &&
      forall m :: 0 <= m < k ==> !Joined(qs, x, order[m]);
    OrdersGrow(rs, more);
    PrefixSplit(order, FirstSeen(rs + more));
    FirstJoinedPrefix(order, FirstSeen(rs + more)[|order|..], qs, x);
  }

  lemma AnchorPosition(rs: seq<MergeEvidence>, k: nat) returns (n: nat)
    requires k < |FirstSeen(rs)|
    ensures n <= k && FirstSeen(rs)[n] == Anchor(rs, FirstSeen(rs)[k])
    ensures Joined(PairOrder(rs), FirstSeen(rs)[k], FirstSeen(rs)[n])
  {
    AnchorFacts(rs, FirstSeen(rs)[k]);
    n :| 0 <= n < |FirstSeen(rs)| && FirstSeen(rs)[n] == Anchor(rs, FirstSeen(rs)[k]);
    AnchorIsEarliest(rs, n, k);
  }

  /** That anchor already anchored its own old cluster. */
  lemma AnchorInherited(rs: seq<MergeEvidence>, more: seq<MergeEvidence>, x: string)
    requires x in FirstSeen(rs)
    ensures Anchor(rs + more, x) in FirstSeen(rs)
    ensures Anchor(rs, Anchor(rs + more, x)) == Anchor(rs + more, x)
  {
    var k := AnchorAfterAppend(rs, more, x);
    var n := AnchorPosition(rs, k);
    JoinedLater(rs, more, FirstSeen(rs)[k], FirstSeen(rs)[n]);
    assert Joined(PairOrder(rs + more), x, FirstSeen(rs)[n]);
  }

  lemma ConfidenceGrows(rs: seq<MergeEvidence>, more: seq<MergeEvidence>, x: string)
    requires InRange(rs + more)
    requires x in FirstSeen(rs) && Anchor(rs + more, x) == Anchor(rs, x)
    ensures Confidence(rs, x) <= Confidence(rs + more, x)
  {
    var a := Anchor(rs, x);
    var ts, us := Spanning(rs), Spanning(rs + more);
    AnchorFacts(rs, x);
    ForestShape(PairOrder(rs));
    SpanningGrows(rs, more);
    PrefixSplit(ts, us);
    TreePathStable(ts, us[|ts|..], a, x);
    forall p | p in TreePath(ts, a, x)
      ensures Strengths(rs)(p) <= Strengths(rs + more)(p)
    {
      StrengthGrows(rs, more, p);
    }
    WeakestMonotone(TreePath(ts, a, x), Strengths(rs), Strengths(rs + more));
  }

  lemma InRangeParts(es: seq<MergeEvidence>, more: seq<MergeEvidence>)
    requires InRange(es + more)
    ensures InRange(Live(es) + Live(more))
  {
    FilterElements(es, Useful);
    FilterElements(more, Useful);
  }

  lemma AbsorbedMember(rs: seq<MergeEvidence>, ms: seq<MergeEvidence>, k: Cluster, l: Cluster, x: string)
    requires InRange(rs + ms)
    requires k in ClustersOf(rs) && x in k.members
    requires l == ClusterAt(rs + ms, Anchor(rs + ms, k.anchor))
    ensures x in l.members
    ensures l.anchor == k.anchor ==> k.members[x] <= l.members[x]
  {
    ClusterShape(rs, k);
    SeenLater(rs, ms, x);
    SeenLater(rs, ms, k.anchor);
    AnchorFacts(rs, x);
    JoinedLater(rs, ms, x, k.anchor);
    AnchorFacts(rs + ms, x);
    if l.anchor == k.anchor {
      ConfidenceGrows(rs, ms, x);
    }
  }

  lemma AbsorbedAnchor(rs: seq<MergeEvidence>, ms: seq<MergeEvidence>, x: string, l: Cluster, prior: Cluster, j: nat, n: nat)
    requires x in FirstSeen(rs) && l in ClustersOf(rs + ms) && l.anchor == Anchor(rs + ms, x)
    requires prior in ClustersOf(rs) && prior.anchor in l.members
    requires j < n < |FirstSeen(rs)| && FirstSeen(rs)[j] == prior.anchor
    ensures FirstSeen(rs)[n] != l.anchor
  {
    ClusterShape(rs, prior);
    ClusterShape(rs + ms, l);
    SeenLater(rs, ms, x);
    AnchorFacts(rs + ms, x);
    var k := AnchorAfterAppend(rs, ms, x);
    FirstSeenFacts(rs);
    assert Joined(PairOrder(rs + ms), x, FirstSeen(rs)[j]);
  }

  /** x is first mentioned before y. */
  ghost predicate SeenBefore(es: seq<MergeEvidence>, x: string, y: string) {
    exists i, j :: 0 <= i < j < |FirstSeen(Live(es))| && FirstSeen(Live(es))[i] == x && FirstSeen(Live(es))[j] == y
  }

  /** The cluster that absorbs k. */
  ghost function Absorber(es: seq<MergeEvidence>, more: seq<MergeEvidence>, k: Cluster): Cluster {
    var rs := Live(es) + Live(more);
    ClusterAt(rs, Anchor(rs, k.anchor))
  }

  /** Appending rows keeps every kept link and only merges clusters; if the absorbing cluster keeps
      k's anchor, no member of k loses confidence. */
  lemma AppendOnlyMerges(es: seq<MergeEvidence>, more: seq<MergeEvidence>, k: Cluster)
    requires InRange(es + more)
    requires k in Clusters(es)
    ensures Spanning(Live(es)) <= Spanning(Live(es + more))
    ensures Absorber(es, more, k) in Clusters(es + more)
    ensures forall x :: x in k.members ==>
              x in Absorber(es, more, k).members &&
              (Absorber(es, more, k).anchor == k.anchor ==> k.members[x] <= Absorber(es, more, k).members[x])
  {
    var rs, ms, l := Live(es), Live(more), Absorber(es, more, k);
    FilterAppend(es, more, Useful);
    SpanningGrows(rs, ms);
    ClusterShape(rs, k);
    SeenLater(rs, ms, k.anchor);
    ClusterOfMember(rs + ms, k.anchor);
    InRangeParts(es, more);
    forall x | x in k.members
      ensures x in l.members && (l.anchor == k.anchor ==> k.members[x] <= l.members[x])
    {
      AbsorbedMember(rs, ms, k, l, x);
    }
  }

  /** The absorbing cluster is anchored at, and named after, the earliest of the old anchors in it. */
  lemma EarliestAnchorSucceeds(es: seq<MergeEvidence>, more: seq<MergeEvidence>, k: Cluster)
    requires k in Clusters(es)
    ensures exists prior :: prior in Clusters(es) && prior.anchor == Absorber(es, more, k).anchor && prior.id == Absorber(es, more, k).id
    ensures forall prior :: prior in Clusters(es) && prior.anchor in Absorber(es, more, k).members ==>
              !SeenBefore(es, prior.anchor, Absorber(es, more, k).anchor)
  {
    var rs, ms, l := Live(es), Live(more), Absorber(es, more, k);
    ClusterShape(rs, k);
    SeenLater(rs, ms, k.anchor);
    ClusterOfMember(rs + ms, k.anchor);
    AnchorInherited(rs, ms, k.anchor);
    ClusterOfMember(rs, l.anchor);
    assert ClusterAt(rs, l.anchor) in Clusters(es);
    forall prior | prior in Clusters(es) && prior.anchor in l.members
      ensures !SeenBefore(es, prior.anchor, l.anchor)
    {
      if SeenBefore(es, prior.anchor, l.anchor) {
        var j, n :| 0 <= j < n < |FirstSeen(rs)| && FirstSeen(rs)[j] == prior.anchor && FirstSeen(rs)[n] == l.anchor;
        AbsorbedAnchor(rs, ms, k.anchor, l, prior, j, n);
      }
    }
  }

  // ---------- redelivery ----------

  /** Row e repeats an earlier row of es: same pair, same transaction, no more confidence. */
  ghost predicate Repeats(es: seq<MergeEvidence>, e: MergeEvidence) {
    exists f :: f in es && Useful(f) && RowPair(f) == RowPair(e) &&
      f.claim.sourceTxId.Some? && f.claim.sourceTxId == e.claim.sourceTxId && e.claim.confidence <= f.claim.confidence
  }

  lemma RepeatAddsNoName(rs: seq<MergeEvidence>, e: MergeEvidence, f: MergeEvidence)
    requires f in rs && RowPair(f) == RowPair(e)
    ensures FirstSeen(rs + [e]) == FirstSeen(rs)
    ensures PairOrder(rs + [e]) == PairOrder(rs)
  {
    InitOfAppend(rs, e);
    FirstSeenFacts(rs);
    PairOrderFacts(rs);
    NormalizeIsUnordered(e.claim.addressA, e.claim.addressB, f.claim.addressA, f.claim.addressB);
  }

  lemma RepeatRaisesNothing(rs: seq<MergeEvidence>, e: MergeEvidence, f: MergeEvidence, p: Pair)
    requires f in rs && RowPair(f) == RowPair(e) && SourceKey(f) == SourceKey(e) && e.claim.confidence <= f.claim.confidence
    ensures BySource(rs + [e], p) == BySource(rs, p)
  {
    InitOfAppend(rs, e);
    SourceKeepsBest(rs, f);
  }

  lemma RepeatChangesNothing(rs: seq<MergeEvidence>, e: MergeEvidence)
    requires exists f :: f in rs && RowPair(f) == RowPair(e) && SourceKey(f) == SourceKey(e) && e.claim.confidence <= f.claim.confidence
    ensures FirstSeen(rs + [e]) == FirstSeen(rs)
    ensures PairOrder(rs + [e]) == PairOrder(rs)
    ensures forall p :: BySource(rs + [e], p) == BySource(rs, p)
  {
    var f :| f in rs && RowPair(f) == RowPair(e) && SourceKey(f) == SourceKey(e) && e.claim.confidence <= f.claim.confidence;
    RepeatAddsNoName(rs, e, f);
    forall p
      ensures BySource(rs + [e], p) == BySource(rs, p)
    {
      RepeatRaisesNothing(rs, e, f, p);
    }
  }

  lemma {:induction false} SameFirstJoined(order: seq<string>, ps: seq<Pair>, qs: seq<Pair>, x: string)
    requires forall y :: Joined(qs, x, y) <==> Joined(ps, x, y)
    ensures FirstJoined(order, qs, x) == FirstJoined(order, ps, x)
  {
    if order != [] {
      SameFirstJoined(Init(order), ps, qs, x);
    }
  }

  lemma SameAnchor(rs: seq<MergeEvidence>, qs: seq<MergeEvidence>, x: string)
    requires FirstSeen(qs) == FirstSeen(rs) && Spanning(qs) == Spanning(rs)
    ensures Anchor(qs, x) == Anchor(rs, x)
  {
    ForestShape(PairOrder(rs));
    ForestShape(PairOrder(qs));
    forall y
      ensures Joined(PairOrder(qs), x, y) <==> Joined(PairOrder(rs), x, y)
    {
      assert Joined(Spanning(qs), x, y) <==> Joined(PairOrder(qs), x, y);
      assert Joined(Spanning(rs), x, y) <==> Joined(PairOrder(rs), x, y);
    }
    SameFirstJoined(FirstSeen(rs), PairOrder(rs), PairOrder(qs), x);
  }

  lemma SameConfidence(rs: seq<MergeEvidence>, qs: seq<MergeEvidence>, x: string)
    requires FirstSeen(qs) == FirstSeen(rs) && Spanning(qs) == Spanning(rs)
    requires forall p :: Strength(qs, p) == Strength(rs, p)
    ensures Anchor(qs, x) == Anchor(rs, x) && Confidence(qs, x) == Confidence(rs, x)
  {
    SameAnchor(rs, qs, x);
    var s := TreePath(Spanning(rs), Anchor(rs, x), x);
    forall p | p in s
      ensures Strengths(qs)(p) == Strengths(rs)(p)
    {
      assert Strength(qs, p) == Strength(rs, p);
    }
    WeakestMonotone(s, Strengths(rs), Strengths(qs));
    WeakestMonotone(s, Strengths(qs), Strengths(rs));
  }

  ghost predicate PlacedAlike(rs: seq<MergeEvidence>, qs: seq<MergeEvidence>, x: string) {
    Anchor(qs, x) == Anchor(rs, x) && Confidence(qs, x) == Confidence(rs, x)
  }

  lemma SameMembersAt(rs: seq<MergeEvidence>, qs: seq<MergeEvidence>, a: string)
    requires FirstSeen(qs) == FirstSeen(rs) && forall x :: PlacedAlike(rs, qs, x)
    ensures Members(qs, a) == Members(rs, a)
  {
    assert forall x :: PlacedAlike(rs, qs, x) ==> Anchor(qs, x) == Anchor(rs, x) && Confidence(qs, x) == Confidence(rs, x);
  }

  lemma SameClusterAt(rs: seq<MergeEvidence>, qs: seq<MergeEvidence>, a: string)
    requires FirstSeen(qs) == FirstSeen(rs) && Spanning(qs) == Spanning(rs)
    requires forall p :: Strength(qs, p) == Strength(rs, p)
    ensures ClusterAt(qs, a) == ClusterAt(rs, a)
  {
    forall x
      ensures PlacedAlike(rs, qs, x)
    {
      SameConfidence(rs, qs, x);
    }
    SameMembersAt(rs, qs, a);
  }

  /** The clusters depend on the rows only through the order of addresses, the kept links and the
      strengths. */
  lemma SameDerivation(rs: seq<MergeEvidence>, qs: seq<MergeEvidence>)
    requires FirstSeen(qs) == FirstSeen(rs) && Spanning(qs) == Spanning(rs)
    requires forall p :: Strength(qs, p) == Strength(rs, p)
    ensures ClustersOf(qs) == ClustersOf(rs)
  {
    forall x | x in Elements(FirstSeen(rs))
      ensures ClusterAt(qs, Anchor(qs, x)) == ClusterAt(rs, Anchor(rs, x))
    {
      SameConfidence(rs, qs, x);
      SameClusterAt(rs, qs, Anchor(rs, x));
    }
  }

  /** Delivering rows again changes nothing: neither the groups nor a single confidence. */
  lemma {:induction false} RedeliveryIsHarmless(es: seq<MergeEvidence>, again: seq<MergeEvidence>)
    requires forall e :: e in again ==> Repeats(es, e)
    ensures Clusters(es + again) == Clusters(es)
  {
    if again == [] {
      assert es + again == es;
    } else {
      var e, fs := Last(again), es + Init(again);
      assert es + again == fs + [e];
      assert forall d :: d in Init(again) ==> d in again;
      RedeliveryIsHarmless(es, Init(again));
      assert e in again && Repeats(es, e);
      RepeatedRowIsHarmless(es, Init(again), e);
    }
  }

  lemma RepeatedRowIsHarmless(es: seq<MergeEvidence>, more: seq<MergeEvidence>, e: MergeEvidence)
    requires Repeats(es, e)
    ensures Clusters(es + more + [e]) == Clusters(es + more)
  {
    var fs := es + more;
    InitOfAppend(fs, e);
    if Useful(e) {
      var f :| f in es && Useful(f) && RowPair(f) == RowPair(e) &&
        f.claim.sourceTxId.Some? && f.claim.sourceTxId == e.claim.sourceTxId && e.claim.confidence <= f.claim.confidence;
      FilterElements(fs, Useful);
      assert f in fs && f in Live(fs);
      RepeatChangesNothing(Live(fs), e);
      forall p
        ensures Strength(Live(fs) + [e], p) == Strength(Live(fs), p)
      {
        assert BySource(Live(fs) + [e], p) == BySource(Live(fs), p);
      }
      SameDerivation(Live(fs), Live(fs) + [e]);
    }
  }
}
