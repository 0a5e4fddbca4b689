/**
 Replay from rows to clusters, proved to return the clusters of ReplaySpec whatever order the maps
 are iterated in.
 */
module Replay {
  import opened Sequences
  import opened Domain
  import opened Connectivity
  import opened Tree
  import opened Aggregates
  import opened ReplaySpec
  import opened ReplayEdges
  import opened ReplayWalk
  import opened UnionFind

  datatype Member = Member(address: string, confidence: real)

  datatype Result = Result(
    clusterId: ClusterId,
    anchorAddress: string,
    size: nat,
    representativeConfidence: real,
    members: seq<Member>)

  ghost function MemberMap(ms: seq<Member>): map<string, real> {
    if ms == [] then map[] else MemberMap(Init(ms))[Last(ms).address := Last(ms).confidence]
  }

  /** A result with its members listed in whatever order. */
  ghost function View(r: Result): Cluster {
    Cluster(r.clusterId, r.anchorAddress, r.size, r.representativeConfidence, MemberMap(r.members))
  }

  // ---------- grouping ----------

  /** components lists, without repeats, the done names of each root. */
  ghost predicate Groups(components: map<string, seq<string>>, done: set<string>, root: map<string, string>) {
    (forall x :: x in done ==> x in root && root[x] in components) &&
    forall r :: r in components ==>
      components[r] != [] && Distinct(components[r]) &&
      forall x :: x in components[r] <==> x in done && x in root && root[x] == r
  }

  lemma GroupsOneMore(components: map<string, seq<string>>, done: set<string>, root: map<string, string>, x: string,
                      components': map<string, seq<string>>)
    requires Groups(components, done, root)
    requires x in root && x !in done
    requires components' == components[root[x] := (if root[x] in components then components[root[x]] else []) + [x]]
    ensures Groups(components', done + {x}, root)
  {
    forall r | r in components'
      ensures components'[r] != [] && Distinct(components'[r])
      ensures forall y :: y in components'[r] <==> y in done + {x} && y in root && root[y] == r
    {
      if r == root[x] {
        var group := if root[x] in components then components[root[x]] else [];
        assert components'[r] == group + [x];
        assert forall y :: y in group <==> y in done && y in root && root[y] == r;
        assert forall y :: y in group + [x] <==> y in group || y == x;
      }
    }
  }

  /** The root of a registered name; the partition stays. */
  method FindRoot(dsu: DSU<string>, x: string) returns (r: string)
    requires dsu.Valid() && x in dsu.root
    modifies dsu
    ensures dsu.Valid() && dsu.root == old(dsu.root) && r == dsu.root[x]
  {
    var root, _ := dsu.Find(x);
    r := root;
  }

  method GroupByRoot(dsu: DSU<string>, addresses: set<string>) returns (components: map<string, seq<string>>)
    requires dsu.Valid() && addresses <= dsu.root.Keys
    modifies dsu
    ensures dsu.Valid() && dsu.root == old(dsu.root)
    ensures Groups(components, addresses, dsu.root)
  {
    components := map[];
    var rest := addresses;
    while rest != {}
      invariant rest <= addresses
      invariant dsu.Valid() && dsu.root == old(dsu.root)
      invariant Groups(components, addresses - rest, dsu.root)
    {
      var addr :| addr in rest;
      var root := FindRoot(dsu, addr);
      var components' := components[root := (if root in components then components[root] else []) + [addr]];
      GroupsOneMore(components, addresses - rest, dsu.root, addr, components');
      assert addresses - (rest - {addr}) == addresses - rest + {addr};
      components, rest := components', rest - {addr};
    }
    assert addresses - rest == addresses;
  }

  // ---------- one cluster ----------

  method EarliestAddress(addrs: seq<string>, firstSeenOrder: map<string, nat>) returns (anchor: string)
    requires addrs != [] && forall x :: x in addrs ==> x in firstSeenOrder
    ensures anchor in addrs
    ensures forall x :: x in addrs ==> firstSeenOrder[anchor] <= firstSeenOrder[x]
  {
    anchor := addrs[0];
    for i := 1 to |addrs|
      invariant anchor in addrs
      invariant forall j :: 0 <= j < i ==> addrs[j] in addrs && firstSeenOrder[anchor] <= firstSeenOrder[addrs[j]]
    {
      var a := addrs[i];
      assert a in addrs;
      if firstSeenOrder[a] < firstSeenOrder[anchor] {
        anchor := a;
      }
    }
  }

  /** m holds these names with their confidences. */
  ghost predicate CarriesOver(m: map<string, real>, names: set<string>, confidence: map<string, real>) {
    m.Keys == names && forall x :: x in m ==> x in confidence && m[x] == confidence[x]
  }

  lemma MemberNext(addrs: seq<string>, i: nat, members: seq<Member>, confidence: map<string, real>)
    requires i < |addrs| && Distinct(addrs) && addrs[i] in confidence
    requires CarriesOver(MemberMap(members), Elements(addrs[..i]), confidence)
    ensures var more := members + [Member(addrs[i], confidence[addrs[i]])];
            CarriesOver(MemberMap(more), Elements(addrs[..i + 1]), confidence) &&
            Total(MemberMap(more)) == Total(MemberMap(members)) + confidence[addrs[i]]
  {
    var a := addrs[i];
    assert addrs[..i + 1] == addrs[..i] + [a];
    assert a !in Elements(addrs[..i]);
    assert Elements(addrs[..i + 1]) == Elements(addrs[..i]) + {a};
    TotalExtend(MemberMap(members), a, confidence[a]);
    InitOfAppend(members, Member(a, confidence[a]));
  }

  method BuildResult(addrs: seq<string>, anchor: string, confidence: map<string, real>) returns (r: Result)
    requires addrs != [] && Distinct(addrs) && forall x :: x in addrs ==> x in confidence
    ensures r.anchorAddress == anchor
    ensures View(r) == (var m := map x | x in Elements(addrs) :: confidence[x]; Cluster(Derived(anchor), anchor, |m|, Mean(m), m))
    ensures |r.members| == |addrs| && forall i :: 0 <= i < |addrs| ==> r.members[i].address == addrs[i]
  {
    var members: seq<Member> := [];
    var confidenceSum := 0.0;
    for i := 0 to |addrs|
      invariant |members| == i && forall j :: 0 <= j < i ==> members[j].address == addrs[j]
      invariant CarriesOver(MemberMap(members), Elements(addrs[..i]), confidence)
      invariant confidenceSum == Total(MemberMap(members))
    {
      var a := addrs[i];
      MemberNext(addrs, i, members, confidence);
      members := members + [Member(a, confidence[a])];
      confidenceSum := confidenceSum + confidence[a];
    }
    assert addrs[..|addrs|] == addrs;
    ghost var m := map x | x in Elements(addrs) :: confidence[x];
    assert MemberMap(members) == m;
    DistinctSize(addrs);
    assert m.Keys == Elements(addrs);
    r := Result(Derived(anchor), anchor, |addrs|, confidenceSum / (|addrs| as real), members);
  }

  /** addrs lists the addresses joined to each of its members. */
  ghost predicate Component(rs: seq<MergeEvidence>, addrs: seq<string>) {
    addrs != [] && Distinct(addrs) &&
    (forall y :: y in addrs ==> y in FirstSeen(rs)) &&
    forall x, y :: x in addrs && y in FirstSeen(rs) ==> (Joined(PairOrder(rs), x, y) <==> y in addrs)
  }

  /** The earliest address of a component is the anchor of exactly its members. */
  lemma ComponentAnchor(rs: seq<MergeEvidence>, addrs: seq<string>, firstSeenOrder: map<string, nat>, anchor: string, x: string)
    requires Numbers(FirstSeen(rs), firstSeenOrder)
    requires Component(rs, addrs) && anchor in addrs
    requires forall y :: y in addrs ==> y in firstSeenOrder && firstSeenOrder[anchor] <= firstSeenOrder[y]
    requires x in FirstSeen(rs)
    ensures Anchor(rs, x) == anchor <==> x in addrs
  {
    var order := FirstSeen(rs);
    var k :| 0 <= k < |order| && order[k] == anchor;
    forall j | 0 <= j < k
      ensures !Joined(PairOrder(rs), anchor, order[j])
    {
      assert order[j] in order && firstSeenOrder[order[j]] == j && firstSeenOrder[order[k]] == k;
    }
    EarliestIsAnchor(rs, k, anchor);
    AnchorFacts(rs, anchor);
    assert Joined(PairOrder(rs), anchor, x) <==> x in addrs;
  }

  method ReplayComponent(addrs: seq<string>, firstSeenOrder: map<string, nat>, adjacency: map<string, seq<Edge>>,
                         ghost rs: seq<MergeEvidence>)
    returns (r: Result)
    requires Numbers(FirstSeen(rs), firstSeenOrder)
    requires Component(rs, addrs)
    requires Adjoins(adjacency, Spanning(rs), Strengths(rs))
    ensures r.anchorAddress in addrs
    ensures forall x :: x in FirstSeen(rs) ==> (Anchor(rs, x) == r.anchorAddress <==> x in addrs)
    ensures View(r) == ClusterAt(rs, r.anchorAddress)
    ensures |r.members| == |addrs| && forall i :: 0 <= i < |addrs| ==> r.members[i].address == addrs[i]
  {
    ForestShape(PairOrder(rs));
    assert forall x :: x in addrs ==> x in Elements(FirstSeen(rs));
    var anchor := EarliestAddress(addrs, firstSeenOrder);
    var confidence := WalkFromAnchor(anchor, adjacency, Spanning(rs), Strengths(rs));
    forall x | x in FirstSeen(rs)
      ensures Anchor(rs, x) == anchor <==> x in addrs
    {
      ComponentAnchor(rs, addrs, firstSeenOrder, anchor, x);
    }
    forall x | x in addrs
      ensures x in confidence && confidence[x] == Confidence(rs, x)
    {
      assert Joined(PairOrder(rs), anchor, x);
      assert Joined(Spanning(rs), anchor, x);
      assert Settled(Spanning(rs), Strengths(rs), anchor, confidence, x);
    }
    r := BuildResult(addrs, anchor, confidence);
    MembersAre(rs, addrs, anchor, confidence);
  }

  lemma MembersAre(rs: seq<MergeEvidence>, addrs: seq<string>, anchor: string, confidence: map<string, real>)
    requires forall x :: x in addrs ==> x in FirstSeen(rs)
    requires forall x :: x in FirstSeen(rs) ==> (Anchor(rs, x) == anchor <==> x in addrs)
    requires forall x :: x in addrs ==> x in confidence && confidence[x] == Confidence(rs, x)
    ensures Members(rs, anchor) == map x | x in Elements(addrs) :: confidence[x]
  {
    var m := map x | x in Elements(addrs) :: confidence[x];
    assert Members(rs, anchor).Keys == m.Keys;
    forall x | x in m
      ensures Members(rs, anchor)[x] == m[x]
    {
      assert x in addrs;
    }
  }

  // ---------- the whole replay ----------

  /** A result that restates the cluster of its anchor, listing each member once. */
  ghost predicate Faithful(rs: seq<MergeEvidence>, r: Result) {
    Anchor(rs, r.anchorAddress) == r.anchorAddress &&
    View(r) == ClusterAt(rs, r.anchorAddress) &&
    forall j, k :: 0 <= j < k < |r.members| ==> r.members[j].address != r.members[k].address
  }

  /** results lists the clusters of the addresses of done, once each. */
  ghost predicate Covers(results: seq<Result>, done: set<string>, rs: seq<MergeEvidence>)
    requires done <= Elements(FirstSeen(rs))
  {
    AllFaithful(results, done, rs) && DistinctAnchors(results) && EachCovered(results, done, rs)
  }

  ghost predicate AllFaithful(results: seq<Result>, done: set<string>, rs: seq<MergeEvidence>) {
    forall r :: r in results ==> Faithful(rs, r) && r.anchorAddress in done
  }

  ghost predicate DistinctAnchors(results: seq<Result>) {
    forall i, j :: 0 <= i < j < |results| ==> results[i].anchorAddress != results[j].anchorAddress
  }

  ghost predicate EachCovered(results: seq<Result>, done: set<string>, rs: seq<MergeEvidence>) {
    forall x :: x in done ==> Covered(results, rs, x)
  }

  ghost predicate Covered(results: seq<Result>, rs: seq<MergeEvidence>, x: string) {
    exists r :: r in results && r.anchorAddress == Anchor(rs, x)
  }

  lemma RootsPartition(rs: seq<MergeEvidence>, root: map<string, string>, components: map<string, seq<string>>, r: string)
    requires Partitions(root, PairOrder(rs))
    requires Groups(components, Elements(FirstSeen(rs)), root)
    requires r in components
    ensures Component(rs, components[r])
  {
  }

  lemma AnchorsStayDistinct(results: seq<Result>, done: set<string>, rs: seq<MergeEvidence>, r: Result)
    requires AllFaithful(results, done, rs) && DistinctAnchors(results) && r.anchorAddress !in done
    ensures DistinctAnchors(results + [r])
  {
    forall i | 0 <= i < |results|
      ensures results[i].anchorAddress in done
    {
      assert results[i] in results;
    }
  }

  lemma MoreFaithful(results: seq<Result>, done: set<string>, rs: seq<MergeEvidence>, r: Result, addrs: set<string>)
    requires AllFaithful(results, done, rs) && Faithful(rs, r) && r.anchorAddress in addrs
    ensures AllFaithful(results + [r], done + addrs, rs)
  {
    AppendedElements(results, r);
  }

  lemma MoreCovered(results: seq<Result>, done: set<string>, rs: seq<MergeEvidence>, r: Result, addrs: set<string>)
    requires EachCovered(results, done, rs) && forall x :: x in addrs ==> Anchor(rs, x) == r.anchorAddress
    ensures EachCovered(results + [r], done + addrs, rs)
  {
    AppendedElements(results, r);
    forall x | x in done + addrs
      ensures Covered(results + [r], rs, x)
    {
      if x in done {
        assert Covered(results, rs, x);
        var q :| q in results && q.anchorAddress == Anchor(rs, x);
        assert q in results + [r];
      } else {
        assert r in results + [r];
      }
    }
  }

  lemma CoversOneMore(results: seq<Result>, done: set<string>, rs: seq<MergeEvidence>, r: Result, addrs: set<string>)
    requires done <= Elements(FirstSeen(rs)) && Covers(results, done, rs)
    requires addrs <= Elements(FirstSeen(rs)) && addrs !! done && r.anchorAddress in addrs
    requires Faithful(rs, r)
    requires forall x :: x in addrs ==> Anchor(rs, x) == r.anchorAddress
    ensures Covers(results + [r], done + addrs, rs)
  {
    AnchorsStayDistinct(results, done, rs, r);
    MoreFaithful(results, done, rs, r, addrs);
    MoreCovered(results, done, rs, r, addrs);
  }

  /** The addresses whose root is not among the remaining ones. */
  ghost function Finished(rs: seq<MergeEvidence>, root: map<string, string>, rest: set<string>): set<string> {
    set x | x in Elements(FirstSeen(rs)) && x in root && root[x] !in rest
  }

  lemma FinishComponent(rs: seq<MergeEvidence>, root: map<string, string>, components: map<string, seq<string>>,
                        rest: set<string>, r: string)
    requires Groups(components, Elements(FirstSeen(rs)), root)
    requires r in rest && r in components
    ensures Finished(rs, root, rest - {r}) == Finished(rs, root, rest) + Elements(components[r])
    ensures Elements(components[r]) !! Finished(rs, root, rest)
  {
    assert forall x :: x in Elements(FirstSeen(rs)) ==> x in root;
    assert forall x :: x in components[r] <==> x in Elements(FirstSeen(rs)) && x in root && root[x] == r;
  }

  method ReplayComponents(components: map<string, seq<string>>, firstSeenOrder: map<string, nat>,
                          adjacency: map<string, seq<Edge>>, ghost rs: seq<MergeEvidence>, ghost root: map<string, string>)
    returns (results: seq<Result>)
    requires Numbers(FirstSeen(rs), firstSeenOrder)
    requires Adjoins(adjacency, Spanning(rs), Strengths(rs))
    requires Partitions(root, PairOrder(rs)) && Groups(components, Elements(FirstSeen(rs)), root)
    ensures Covers(results, Elements(FirstSeen(rs)), rs)
  {
    results := [];
    var rest := components.Keys;
    assert Finished(rs, root, rest) == {};
    while rest != {}
      invariant rest <= components.Keys
      invariant Covers(results, Finished(rs, root, rest), rs)
    {
      var r :| r in rest;
      RootsPartition(rs, root, components, r);
      var result := ReplayComponent(components[r], firstSeenOrder, adjacency, rs);
      ComponentResult(rs, components[r], result);
      ghost var addrs := Elements(components[r]);
      FinishComponent(rs, root, components, rest, r);
      CoversOneMore(results, Finished(rs, root, rest), rs, result, addrs);
      results, rest := results + [result], rest - {r};
    }
    assert Finished(rs, root, rest) == Elements(FirstSeen(rs));
  }

  lemma ComponentResult(rs: seq<MergeEvidence>, addrs: seq<string>, r: Result)
    requires Component(rs, addrs)
    requires r.anchorAddress in addrs && View(r) == ClusterAt(rs, r.anchorAddress)
    requires forall x :: x in FirstSeen(rs) ==> (Anchor(rs, x) == r.anchorAddress <==> x in addrs)
    requires |r.members| == |addrs| && forall i :: 0 <= i < |addrs| ==> r.members[i].address == addrs[i]
    ensures Faithful(rs, r)
    ensures Elements(addrs) <= Elements(FirstSeen(rs)) && r.anchorAddress in Elements(addrs)
    ensures forall x :: x in Elements(addrs) ==> Anchor(rs, x) == r.anchorAddress
  {
  }

  /** Every order of iteration yields the clusters of the specification, each exactly once and
      each member exactly once. */
  method Replay(evidence: seq<MergeEvidence>) returns (results: seq<Result>)
    ensures (set r | r in results :: View(r)) == Clusters(evidence)
    ensures forall i, j :: 0 <= i < j < |results| ==> results[i].anchorAddress != results[j].anchorAddress
    ensures forall r :: r in results ==>
              forall j, k :: 0 <= j < k < |r.members| ==> r.members[j].address != r.members[k].address
  {
    ghost var rs := Live(evidence);
    var firstSeenOrder, pairs := CollectEvidence(evidence);
    var edges := CombineEdges(pairs, PairOrder(rs));
    var dsu := new DSU<string>();
    var adjacency := UnionEdges(dsu, edges, PairOrder(rs), Strengths(rs));
    AddressesMentioned(rs, dsu.root);
    var components := GroupByRoot(dsu, firstSeenOrder.Keys);
    results := ReplayComponents(components, firstSeenOrder, adjacency, rs, dsu.root);
    CoversAll(results, rs);
  }

  lemma AddressesMentioned(rs: seq<MergeEvidence>, root: map<string, string>)
    requires Partitions(root, PairOrder(rs))
    ensures Elements(FirstSeen(rs)) <= root.Keys
  {
    FirstSeenFacts(rs);
    PairOrderFacts(rs);
    forall x | x in FirstSeen(rs)
      ensures x in root
    {
      var e :| e in rs && (e.claim.addressA == x || e.claim.addressB == x);
      assert RowPair(e) in PairOrder(rs);
      assert Mentions(PairOrder(rs), x);
    }
  }

  lemma CoversAll(results: seq<Result>, rs: seq<MergeEvidence>)
    requires Covers(results, Elements(FirstSeen(rs)), rs)
    ensures (set r | r in results :: View(r)) == ClustersOf(rs)
  {
    forall k | k in ClustersOf(rs)
      ensures exists r :: r in results && View(r) == k
    {
      var x :| x in Elements(FirstSeen(rs)) && k == ClusterAt(rs, Anchor(rs, x));
      var r :| r in results && r.anchorAddress == Anchor(rs, x);
      assert View(r) == k;
    }
    forall r | r in results
      ensures View(r) in ClustersOf(rs)
    {
      assert View(r) == ClusterAt(rs, Anchor(rs, r.anchorAddress));
    }
  }
}
