/**
 A cluster depends only on the rows inside it.
 */
module ReplayLocality {
  import opened Sequences
  import opened Domain
  import opened Connectivity
  import opened Tree
  import opened ReplaySpec
  import opened ReplayPartition

  function RowIn(c: set<string>): MergeEvidence -> bool {
    (e: MergeEvidence) => e.claim.addressA in c && e.claim.addressB in c
  }

  function PairIn(c: set<string>): Pair -> bool {
    (p: Pair) => p.a in c && p.b in c
  }

  function NameIn(c: set<string>): string -> bool {
    x => x in c
  }

  /** No row has exactly one end in c. */
  ghost predicate Sealed(rs: seq<MergeEvidence>, c: set<string>) {
    forall e :: e in rs ==> (e.claim.addressA in c <==> e.claim.addressB in c)
  }

  ghost predicate PairsSealed(ps: seq<Pair>, c: set<string>) {
    forall p :: p in ps ==> (p.a in c <==> p.b in c)
  }

  lemma FilterTouch<T>(s: seq<T>, x: T, keep: T -> bool)
    ensures Filter(Touch(s, x), keep) == if keep(x) then Touch(Filter(s, keep), x) else Filter(s, keep)
  {
    FilterElements(s, keep);
    if x !in s {
      InitOfAppend(s, x);
    }
  }

  lemma {:induction false} RestrictRows(rs: seq<MergeEvidence>, c: set<string>)
    requires Sealed(rs, c)
    ensures FirstSeen(Filter(rs, RowIn(c))) == Filter(FirstSeen(rs), NameIn(c))
    ensures PairOrder(Filter(rs, RowIn(c))) == Filter(PairOrder(rs), PairIn(c))
    ensures PairsSealed(PairOrder(rs), c)
  {
    if rs != [] {
      var i, e := Init(rs), Last(rs);
      assert e in rs && forall d :: d in i ==> d in rs;
      RestrictRows(i, c);
      var a, b := e.claim.addressA, e.claim.addressB;
      FilterTouch(FirstSeen(i), a, NameIn(c));
      FilterTouch(Touch(FirstSeen(i), a), b, NameIn(c));
      FilterTouch(PairOrder(i), RowPair(e), PairIn(c));
      if RowIn(c)(e) {
        InitOfAppend(Filter(i, RowIn(c)), e);
      }
      forall p | p in PairOrder(rs)
        ensures p.a in c <==> p.b in c
      {
        TouchMember(PairOrder(i), RowPair(e), p);
      }
    }
  }

  lemma {:induction false} RestrictSources(rs: seq<MergeEvidence>, c: set<string>, p: Pair)
    requires PairIn(c)(p)
    ensures BySource(Filter(rs, RowIn(c)), p) == BySource(rs, p)
  {
    if rs != [] {
      RestrictSources(Init(rs), c, p);
      if RowIn(c)(Last(rs)) {
        InitOfAppend(Filter(Init(rs), RowIn(c)), Last(rs));
      }
    }
  }

  lemma {:induction false} RestrictLabel(ps: seq<Pair>, c: set<string>, x: string)
    requires PairsSealed(ps, c)
    ensures Label(ps, x) in c <==> x in c
    ensures x in c ==> Label(Filter(ps, PairIn(c)), x) == Label(ps, x)
  {
    if ps != [] {
      var i, p := Init(ps), Last(ps);
      assert p in ps && forall q :: q in i ==> q in ps;
      RestrictLabel(i, c, x);
      RestrictLabel(i, c, p.a);
      RestrictLabel(i, c, p.b);
      if PairIn(c)(p) {
        InitOfAppend(Filter(i, PairIn(c)), p);
      }
    }
  }

  lemma {:induction false} RestrictForest(ps: seq<Pair>, c: set<string>)
    requires PairsSealed(ps, c)
    ensures Forest(Filter(ps, PairIn(c))) == Filter(Forest(ps), PairIn(c))
    ensures PairsSealed(Forest(ps), c)
  {
    ForestShape(ps);
    if ps != [] {
      var i, p := Init(ps), Last(ps);
      assert p in ps && forall q :: q in i ==> q in ps;
      RestrictForest(i, c);
      RestrictLabel(i, c, p.a);
      RestrictLabel(i, c, p.b);
      if PairIn(c)(p) {
        InitOfAppend(Filter(i, PairIn(c)), p);
      }
      if !Joined(i, p.a, p.b) {
        InitOfAppend(Forest(i), p);
      }
    }
  }

  lemma {:induction false} RestrictTreePath(ts: seq<Pair>, c: set<string>, x: string, y: string)
    requires PairsSealed(ts, c) && x in c && y in c
    ensures TreePath(Filter(ts, PairIn(c)), x, y) == TreePath(ts, x, y)
    ensures forall p :: p in TreePath(ts, x, y) ==> PairIn(c)(p)
  {
    RestrictLabel(ts, c, x);
    RestrictLabel(ts, c, y);
    if ts != [] {
      var i, p := Init(ts), Last(ts);
      assert p in ts && forall q :: q in i ==> q in ts;
      RestrictLabel(i, c, x);
      RestrictLabel(i, c, y);
      RestrictLabel(i, c, p.a);
      RestrictLabel(i, c, p.b);
      RestrictTreePath(i, c, x, y);
      if PairIn(c)(p) {
        InitOfAppend(Filter(i, PairIn(c)), p);
        RestrictTreePath(i, c, x, p.a);
        RestrictTreePath(i, c, x, p.b);
        RestrictTreePath(i, c, p.a, y);
        RestrictTreePath(i, c, p.b, y);
      }
    }
  }

  lemma {:induction false} RestrictFirstJoined(order: seq<string>, ps: seq<Pair>, c: set<string>, x: string)
    requires PairsSealed(ps, c) && x in c
    ensures FirstJoined(Filter(order, NameIn(c)), Filter(ps, PairIn(c)), x) == FirstJoined(order, ps, x)
  {
    if order != [] {
      RestrictFirstJoined(Init(order), ps, c, x);
      RestrictLabel(ps, c, x);
      RestrictLabel(ps, c, Last(order));
      if NameIn(c)(Last(order)) {
        InitOfAppend(Filter(Init(order), NameIn(c)), Last(order));
      }
    }
  }

  lemma SameWeakest(s: set<Pair>, c: Pair -> real, d: Pair -> real)
    requires forall p :: p in s ==> c(p) == d(p)
    ensures Weakest(s, c) == Weakest(s, d)
  {
    WeakestMonotone(s, c, d);
    WeakestMonotone(s, d, c);
  }

  lemma RestrictMember(rs: seq<MergeEvidence>, c: set<string>, x: string)
    requires Sealed(rs, c) && x in c && x in FirstSeen(rs)
    ensures x in FirstSeen(Filter(rs, RowIn(c)))
    ensures Anchor(Filter(rs, RowIn(c)), x) == Anchor(rs, x) && Anchor(rs, x) in c
    ensures Confidence(Filter(rs, RowIn(c)), x) == Confidence(rs, x)
  {
    var qs := Filter(rs, RowIn(c));
    RestrictRows(rs, c);
    FilterElements(FirstSeen(rs), NameIn(c));
    RestrictFirstJoined(FirstSeen(rs), PairOrder(rs), c, x);
    AnchorFacts(rs, x);
    var a := Anchor(rs, x);
    RestrictLabel(PairOrder(rs), c, x);
    RestrictLabel(PairOrder(rs), c, a);
    RestrictForest(PairOrder(rs), c);
    RestrictTreePath(Spanning(rs), c, a, x);
    forall p | p in TreePath(Spanning(rs), a, x)
      ensures Strengths(qs)(p) == Strengths(rs)(p)
    {
      RestrictSources(rs, c, p);
    }
    SameWeakest(TreePath(Spanning(rs), a, x), Strengths(qs), Strengths(rs));
  }

  lemma RestrictCluster(rs: seq<MergeEvidence>, c: set<string>, a: string)
    requires Sealed(rs, c) && a in c
    ensures ClusterAt(Filter(rs, RowIn(c)), a) == ClusterAt(rs, a)
  {
    var qs := Filter(rs, RowIn(c));
    RestrictRows(rs, c);
    FilterElements(FirstSeen(rs), NameIn(c));
    forall x | x in FirstSeen(rs)
      ensures x in c ==> x in FirstSeen(qs) && Anchor(qs, x) == Anchor(rs, x) && Confidence(qs, x) == Confidence(rs, x)
      ensures x !in c ==> Anchor(rs, x) != a
    {
      if x in c {
        RestrictMember(rs, c, x);
      } else {
        AnchorFacts(rs, x);
        RestrictLabel(PairOrder(rs), c, x);
        RestrictLabel(PairOrder(rs), c, a);
      }
    }
    assert Members(qs, a) == Members(rs, a);
  }

  lemma RestrictLive(es: seq<MergeEvidence>, c: set<string>)
    ensures Live(Filter(es, RowIn(c))) == Filter(Live(es), RowIn(c))
  {
    FilterTwice(es, RowIn(c), Useful);
  }

  /** The rows at a cluster's members have both ends there. */
  lemma ClusterIsSealed(rs: seq<MergeEvidence>, k: Cluster)
    requires k in ClustersOf(rs)
    ensures Sealed(rs, k.members.Keys)
  {
    ClusterShape(rs, k);
    PairOrderFacts(rs);
    FirstSeenFacts(rs);
    forall e | e in rs
      ensures e.claim.addressA in k.members <==> e.claim.addressB in k.members
    {
      LinkJoins(PairOrder(rs), RowPair(e));
      AnchorFacts(rs, e.claim.addressA);
    }
  }

  /** Locality: replaying only the rows with both ends in a cluster gives that cluster alone, with
      the same anchor, members, confidences and representative confidence. */
  lemma ClusterDependsOnOwnRows(es: seq<MergeEvidence>, k: Cluster)
    requires k in Clusters(es)
    ensures Clusters(Filter(es, RowIn(k.members.Keys))) == {k}
  {
    var rs, c := Live(es), k.members.Keys;
    var qs := Filter(rs, RowIn(c));
    RestrictLive(es, c);
    ClusterIsSealed(rs, k);
    ClusterShape(rs, k);
    RestrictRows(rs, c);
    FilterElements(FirstSeen(rs), NameIn(c));
    RestrictCluster(rs, c, k.anchor);
    forall x | x in FirstSeen(qs)
      ensures ClusterAt(qs, Anchor(qs, x)) == k
    {
      RestrictMember(rs, c, x);
    }
    ClusterOfMember(qs, k.anchor);
  }

  /** Changing rows outside a cluster, as a rollback elsewhere does, leaves the cluster as it is,
      as long as no live row crosses its border. */
  lemma ClusterSurvivesOutsideChange(es: seq<MergeEvidence>, fs: seq<MergeEvidence>, k: Cluster)
    requires k in Clusters(es)
    requires Filter(Live(es), RowIn(k.members.Keys)) == Filter(Live(fs), RowIn(k.members.Keys))
    requires Sealed(Live(fs), k.members.Keys)
    ensures k in Clusters(fs)
  {
    var c := k.members.Keys;
    ClusterIsSealed(Live(es), k);
    ClusterShape(Live(es), k);
    RestrictCluster(Live(es), c, k.anchor);
    RestrictCluster(Live(fs), c, k.anchor);
    RestrictRows(Live(es), c);
    RestrictRows(Live(fs), c);
    FilterElements(FirstSeen(Live(es)), NameIn(c));
    FilterElements(FirstSeen(Live(fs)), NameIn(c));
    RestrictMember(Live(es), c, k.anchor);
    RestrictMember(Live(fs), c, k.anchor);
    ClusterOfMember(Live(fs), k.anchor);
  }

  // ---------- the identifier of a cluster ----------

  /** The first useful row inside c. */
  ghost function Opener(es: seq<MergeEvidence>, c: set<string>): Option<MergeEvidence> {
    var rs := Filter(Live(es), RowIn(c));
    if rs == [] then None else Some(rs[0])
  }

  lemma {:induction false} FirstSeenStarts(rs: seq<MergeEvidence>)
    requires rs != []
    ensures FirstSeen(rs) != [] && FirstSeen(rs)[0] == rs[0].claim.addressA
  {
    if Init(rs) != [] {
      FirstSeenStarts(Init(rs));
    }
  }

  lemma LoneClusterOpens(qs: seq<MergeEvidence>, k: Cluster)
    requires ClustersOf(qs) == {k}
    ensures qs != [] && k.anchor == qs[0].claim.addressA
  {
    assert k in ClustersOf(qs);
    ClusterShape(qs, k);
    FirstSeenStarts(qs);
    var x := FirstSeen(qs)[0];
    ClusterOfMember(qs, x);
    assert ClusterAt(qs, Anchor(qs, x)) == k;
    var i :| 0 <= i < |FirstSeen(qs)| && FirstSeen(qs)[i] == k.anchor;
    AnchorIsEarliest(qs, i, 0);
    assert i == 0;
  }

  /** The anchor is the first address of the first row inside the cluster. */
  lemma AnchorIsOpener(es: seq<MergeEvidence>, k: Cluster)
    requires k in Clusters(es)
    ensures Opener(es, k.members.Keys).Some?
    ensures k.anchor == Opener(es, k.members.Keys).value.claim.addressA
    ensures k.id == Derived(k.anchor)
  {
    RestrictLive(es, k.members.Keys);
    ClusterDependsOnOwnRows(es, k);
    LoneClusterOpens(Filter(Live(es), RowIn(k.members.Keys)), k);
    ClusterShape(Live(es), k);
  }

  /** The design asks that the identifier be a function of the member set. It is one exactly as far
      as the first row inside the cluster names the same address first. */
  lemma IdFollowsOpener(es: seq<MergeEvidence>, fs: seq<MergeEvidence>, k: Cluster, l: Cluster)
    requires k in Clusters(es) && l in Clusters(fs)
    requires k.members.Keys == l.members.Keys
    ensures Opener(es, k.members.Keys).Some? && Opener(fs, k.members.Keys).Some?
    ensures k.id == l.id <==>
            Opener(es, k.members.Keys).value.claim.addressA == Opener(fs, k.members.Keys).value.claim.addressA
  {
    AnchorIsOpener(es, k);
    AnchorIsOpener(fs, l);
  }

  /** Two logs with one cluster over the same members and different identifiers. */
  lemma IdIsNotAFunctionOfMembers() returns (es: seq<MergeEvidence>, fs: seq<MergeEvidence>, k: Cluster, l: Cluster)
    ensures k in Clusters(es) && l in Clusters(fs)
    ensures k.members.Keys == l.members.Keys && k.id != l.id
  {
    var e := MergeEvidence(1, MergeCandidate("btc", "A", "B", "manual", None, None, None, 0.5), Active, None);
    var f := MergeEvidence(1, MergeCandidate("btc", "B", "A", "manual", None, None, None, 0.5), Active, None);
    es, fs := [e], [f];
    k := OnlyCluster(e);
    l := OnlyCluster(f);
    assert k.members.Keys == {"A", "B"} && l.members.Keys == {"A", "B"};
  }

  lemma OnlyRow(e: MergeEvidence, keep: MergeEvidence -> bool)
    requires keep(e)
    ensures Filter([e], keep) == [e]
  {
    FilterAll([e], keep);
  }

  lemma TouchedByOnlyRow(e: MergeEvidence, x: string)
    ensures Touched([e], x) ==> x == e.claim.addressA || x == e.claim.addressB
  {
  }

  lemma OnlyClusterMembers(e: MergeEvidence) returns (k: Cluster)
    requires Useful(e)
    ensures k in Clusters([e])
    ensures k.members.Keys == {e.claim.addressA, e.claim.addressB}
  {
    var a, b := e.claim.addressA, e.claim.addressB;
    RowTogether([e], e);
    k :| k in Clusters([e]) && a in k.members && b in k.members;
    ClustersPartitionTouched([e]);
    forall x | x in k.members
      ensures x == a || x == b
    {
      TouchedByOnlyRow(e, x);
    }
    TwoKeys(k.members, a, b);
  }

  lemma TwoKeys(m: map<string, real>, a: string, b: string)
    requires a in m && b in m && forall x :: x in m ==> x == a || x == b
    ensures m.Keys == {a, b}
  {
  }

  lemma OnlyCluster(e: MergeEvidence) returns (k: Cluster)
    requires Useful(e)
    ensures k in Clusters([e])
    ensures k.members.Keys == {e.claim.addressA, e.claim.addressB}
    ensures k.id == Derived(e.claim.addressA)
  {
    k := OnlyClusterMembers(e);
    AnchorIsOpener([e], k);
    OnlyRow(e, Useful);
    OnlyRow(e, RowIn(k.members.Keys));
  }
}
