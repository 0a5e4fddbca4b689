/**
 The first half of replay: rows are collected into one entry per unordered pair, and each entry is
 combined into a weighted edge; the edges come out in order of first appearance. Iteration over a
 map takes its entries in an arbitrary order.
 */
module ReplayEdges {
  import opened Sequences
  import opened Domain
  import opened Connectivity
  import opened Aggregates
  import opened ReplaySpec

  datatype PairEvidence = PairEvidence(firstOrder: nat, bySource: map<string, real>)

  datatype CombinedEdge = CombinedEdge(key: Pair, confidence: real, firstOrder: nat)

  // ---------- first pass over the rows ----------

  /** seen numbers the elements of order by position. */
  ghost predicate Numbers(order: seq<string>, seen: map<string, nat>) {
    seen.Keys == Elements(order) && forall i :: 0 <= i < |order| ==> seen[order[i]] == i
  }

  method TouchAddress(seen: map<string, nat>, next: nat, address: string, ghost order: seq<string>)
    returns (seen': map<string, nat>, next': nat)
    requires Distinct(order) && Numbers(order, seen) && next == |order|
    ensures Distinct(Touch(order, address)) && Numbers(Touch(order, address), seen') && next' == |Touch(order, address)|
  {
    seen', next' := seen, next;
    DistinctTouch(order, address);
    if address !in seen {
      assert address !in Elements(order);
      seen', next' := seen[address := next], next + 1;
    } else {
      assert address in Elements(order);
    }
  }

  /** pairs holds the sources of each pair and numbers the pairs in order of first appearance. */
  ghost predicate Collects(rs: seq<MergeEvidence>, pairs: map<Pair, PairEvidence>, next: nat) {
    pairs.Keys == Elements(PairOrder(rs)) && Sourcing(rs, pairs, next) && Ascending(PairOrder(rs), pairs)
  }

  ghost predicate Sourcing(rs: seq<MergeEvidence>, pairs: map<Pair, PairEvidence>, next: nat) {
    forall p :: p in pairs ==> pairs[p].bySource == BySource(rs, p) && pairs[p].firstOrder < next
  }

  ghost predicate Ascending(ps: seq<Pair>, pairs: map<Pair, PairEvidence>)
  {
    (forall p :: p in ps ==> p in pairs) &&
    forall i, j :: 0 <= i < j < |ps| ==> pairs[ps[i]].firstOrder < pairs[ps[j]].firstOrder
  }

  lemma {:induction false} NoSources(rs: seq<MergeEvidence>, p: Pair)
    requires p !in PairOrder(rs)
    ensures BySource(rs, p) == map[]
  {
    if rs != [] {
      TouchMember(PairOrder(Init(rs)), RowPair(Last(rs)), p);
      TouchMember(PairOrder(Init(rs)), RowPair(Last(rs)), RowPair(Last(rs)));
      NoSources(Init(rs), p);
    }
  }

  lemma AscendingTouch(order: seq<Pair>, pairs: map<Pair, PairEvidence>, key: Pair, pe: PairEvidence, next: nat)
    requires Ascending(order, pairs)
    requires forall p :: p in pairs ==> pairs[p].firstOrder < next
    requires pe.firstOrder == if key in order then pairs[key].firstOrder else next
    ensures Ascending(Touch(order, key), pairs[key := pe])
  {
    var order', pairs' := Touch(order, key), pairs[key := pe];
    forall i, j | 0 <= i < j < |order'|
      ensures pairs'[order'[i]].firstOrder < pairs'[order'[j]].firstOrder
    {
      assert order'[i] == order[i] && order[i] in order;
      if j < |order| {
        assert order'[j] == order[j] && order[j] in order;
      }
    }
  }

  lemma SeenPair(rs: seq<MergeEvidence>, pairs: map<Pair, PairEvidence>, key: Pair)
    requires pairs.Keys == Elements(PairOrder(rs))
    ensures key in pairs <==> key in PairOrder(rs)
  {
    assert key in Elements(PairOrder(rs)) <==> key in PairOrder(rs);
  }

  lemma OtherSources(rs: seq<MergeEvidence>, e: MergeEvidence, p: Pair)
    ensures p != RowPair(e) ==> BySource(rs + [e], p) == BySource(rs, p)
  {
    InitOfAppend(rs, e);
  }

  lemma PairsGrow(rs: seq<MergeEvidence>, e: MergeEvidence)
    ensures PairOrder(rs + [e]) == Touch(PairOrder(rs), RowPair(e))
    ensures Elements(PairOrder(rs + [e])) == Elements(PairOrder(rs)) + {RowPair(e)}
  {
    InitOfAppend(rs, e);
    PairOrderFacts(rs);
    DistinctTouch(PairOrder(rs), RowPair(e));
  }

  lemma SourcesGrow(rs: seq<MergeEvidence>, pairs: map<Pair, PairEvidence>, next: nat, e: MergeEvidence, pe: PairEvidence)
    requires Sourcing(rs, pairs, next)
    requires pe.firstOrder <= next && pe.bySource == BySource(rs + [e], RowPair(e))
    ensures Sourcing(rs + [e], pairs[RowPair(e) := pe], next + 1)
  {
    forall p | p in pairs
      ensures p != RowPair(e) ==> BySource(rs + [e], p) == pairs[p].bySource
    {
      OtherSources(rs, e, p);
    }
  }

  lemma CollectsNext(rs: seq<MergeEvidence>, pairs: map<Pair, PairEvidence>, next: nat, e: MergeEvidence, pe: PairEvidence)
    requires Collects(rs, pairs, next)
    requires pe.firstOrder == if RowPair(e) in PairOrder(rs) then pairs[RowPair(e)].firstOrder else next
    requires pe.bySource == BySource(rs + [e], RowPair(e))
    ensures Collects(rs + [e], pairs[RowPair(e) := pe], next + 1)
  {
    AscendingTouch(PairOrder(rs), pairs, RowPair(e), pe, next);
    PairsGrow(rs, e);
    SourcesGrow(rs, pairs, next, e, pe);
  }

  method CollectRow(pairs: map<Pair, PairEvidence>, streamIndex: nat, e: MergeEvidence, ghost rs: seq<MergeEvidence>)
    returns (pairs': map<Pair, PairEvidence>)
    requires Collects(rs, pairs, streamIndex)
    ensures Collects(rs + [e], pairs', streamIndex + 1)
  {
    var key := RowPair(e);
    SeenPair(rs, pairs, key);
    var pe;
    if key in pairs {
      pe := pairs[key];
    } else {
      NoSources(rs, key);
      pe := PairEvidence(streamIndex, map[]);
    }
    InitOfAppend(rs, e);
    assert BySource(rs + [e], key) == Raise(pe.bySource, key, e);
    var source := SourceKey(e);
    if source !in pe.bySource || e.claim.confidence > pe.bySource[source] {
      pe := pe.(bySource := pe.bySource[source := e.claim.confidence]);
    }
    CollectsNext(rs, pairs, streamIndex, e, pe);
    pairs' := pairs[key := pe];
  }

  lemma LiveNext(evidence: seq<MergeEvidence>, i: nat)
    requires i < |evidence|
    ensures Live(evidence[..i + 1]) == if Useful(evidence[i]) then Live(evidence[..i]) + [evidence[i]] else Live(evidence[..i])
  {
    assert evidence[..i + 1] == evidence[..i] + [evidence[i]];
    InitOfAppend(evidence[..i], evidence[i]);
  }

  /** The addresses of the rows are numbered in order of first appearance, next is the next number. */
  ghost predicate Touching(rs: seq<MergeEvidence>, seen: map<string, nat>, next: nat) {
    Distinct(FirstSeen(rs)) && Numbers(FirstSeen(rs), seen) && next == |FirstSeen(rs)|
  }

  method TouchRow(seen: map<string, nat>, next: nat, e: MergeEvidence, ghost rs: seq<MergeEvidence>)
    returns (seen': map<string, nat>, next': nat)
    requires Touching(rs, seen, next)
    ensures Touching(rs + [e], seen', next')
  {
    InitOfAppend(rs, e);
    seen', next' := TouchAddress(seen, next, e.claim.addressA, FirstSeen(rs));
    seen', next' := TouchAddress(seen', next', e.claim.addressB, Touch(FirstSeen(rs), e.claim.addressA));
  }

  method CollectEvidence(evidence: seq<MergeEvidence>) returns (firstSeenOrder: map<string, nat>, pairs: map<Pair, PairEvidence>)
    ensures Numbers(FirstSeen(Live(evidence)), firstSeenOrder)
    ensures exists next: nat :: Collects(Live(evidence), pairs, next)
  {
    firstSeenOrder, pairs := map[], map[];
    var nextOrder, streamIndex := 0, 0;
    for i := 0 to |evidence|
      invariant Touching(Live(evidence[..i]), firstSeenOrder, nextOrder)
      invariant Collects(Live(evidence[..i]), pairs, streamIndex)
    {
      var e := evidence[i];
      LiveNext(evidence, i);
      if e.status != Active {
        continue;
      }
      if e.claim.addressA == e.claim.addressB {
        continue;
      }
      firstSeenOrder, nextOrder := TouchRow(firstSeenOrder, nextOrder, e, Live(evidence[..i]));
      pairs := CollectRow(pairs, streamIndex, e, Live(evidence[..i]));
      streamIndex := streamIndex + 1;
    }
    assert evidence[..|evidence|] == evidence;
  }

  // ---------- combining and sorting ----------

  method CombineSources(bySource: map<string, real>) returns (r: real)
    ensures r == NoisyOr(bySource)
  {
    var product, rest := 1.0, bySource.Keys;
    ghost var done: map<string, real> := map[];
    while rest != {}
      invariant rest <= bySource.Keys
      invariant done == map k | k in bySource && k !in rest :: bySource[k]
      invariant product == Complement(done)
    {
      var k :| k in rest;
      ghost var done' := done[k := bySource[k]];
      ComplementPick(done', k);
      assert done' - {k} == done;
      product := product * (1.0 - bySource[k]);
      rest := rest - {k};
      done := done';
    }
    assert done == bySource;
    return 1.0 - product;
  }

  function InsertByOrder(e: CombinedEdge, s: seq<CombinedEdge>): seq<CombinedEdge> {
    if s == [] || e.firstOrder < s[0].firstOrder then [e] + s
    else [s[0]] + InsertByOrder(e, s[1..])
  }

  ghost predicate Sorted(s: seq<CombinedEdge>) {
    forall i, j :: 0 <= i < j < |s| ==> s[i].firstOrder < s[j].firstOrder
  }

  lemma {:induction false} InsertElements(e: CombinedEdge, s: seq<CombinedEdge>, d: CombinedEdge)
    ensures d in InsertByOrder(e, s) <==> d == e || d in s
  {
    if s != [] && e.firstOrder >= s[0].firstOrder {
      InsertElements(e, s[1..], d);
      assert s == [s[0]] + s[1..];
    }
  }

  lemma SortedTail(s: seq<CombinedEdge>)
    requires Sorted(s) && s != []
    ensures Sorted(s[1..]) && forall d :: d in s[1..] ==> s[0].firstOrder < d.firstOrder
  {
    forall i, j | 0 <= i < j < |s[1..]|
      ensures s[1..][i].firstOrder < s[1..][j].firstOrder
    {
      assert s[1..][i] == s[i + 1] && s[1..][j] == s[j + 1];
    }
    forall d | d in s[1..]
      ensures s[0].firstOrder < d.firstOrder
    {
      var i :| 0 <= i < |s[1..]| && s[1..][i] == d;
      assert s[i + 1] == d;
    }
  }

  lemma SortedPrepend(e: CombinedEdge, s: seq<CombinedEdge>)
    requires Sorted(s) && forall d :: d in s ==> e.firstOrder < d.firstOrder
    ensures Sorted([e] + s)
  {
    forall i, j | 0 <= i < j < |[e] + s|
      ensures ([e] + s)[i].firstOrder < ([e] + s)[j].firstOrder
    {
      assert ([e] + s)[j] == s[j - 1] && s[j - 1] in s;
      assert i > 0 ==> ([e] + s)[i] == s[i - 1];
    }
  }

  lemma {:induction false} InsertKeepsSorted(e: CombinedEdge, s: seq<CombinedEdge>)
    requires Sorted(s)
    requires forall d :: d in s ==> d.firstOrder != e.firstOrder
    ensures Sorted(InsertByOrder(e, s))
  {
    if s == [] {
    } else if e.firstOrder < s[0].firstOrder {
      SortedTail(s);
      assert s == [s[0]] + s[1..];
      SortedPrepend(e, s);
    } else {
      SortedTail(s);
      assert s[0] in s && forall d :: d in s[1..] ==> d in s;
      InsertKeepsSorted(e, s[1..]);
      var rest := InsertByOrder(e, s[1..]);
      forall d | d in rest
        ensures s[0].firstOrder < d.firstOrder
      {
        InsertElements(e, s[1..], d);
      }
      SortedPrepend(s[0], rest);
    }
  }

  /** edges lists exactly the pairs of done, sorted, with their combined confidence. */
  ghost predicate Lists(edges: seq<CombinedEdge>, done: set<Pair>, pairs: map<Pair, PairEvidence>)
    requires done <= pairs.Keys
  {
    Sorted(edges) &&
    (forall e :: e in edges ==>
        e.key in done && e.confidence == NoisyOr(pairs[e.key].bySource) && e.firstOrder == pairs[e.key].firstOrder) &&
    (forall p :: p in done ==> exists e :: e in edges && e.key == p)
  }

  lemma ListsOneMore(edges: seq<CombinedEdge>, done: set<Pair>, order: seq<Pair>, pairs: map<Pair, PairEvidence>, edge: CombinedEdge)
    requires Ascending(order, pairs) && Elements(order) == pairs.Keys
    requires done <= pairs.Keys && Lists(edges, done, pairs)
    requires edge.key in pairs && edge.key !in done
    requires edge.confidence == NoisyOr(pairs[edge.key].bySource) && edge.firstOrder == pairs[edge.key].firstOrder
    ensures Lists(InsertByOrder(edge, edges), done + {edge.key}, pairs)
  {
    forall d | d in edges
      ensures d.firstOrder != edge.firstOrder
    {
      OrdersDiffer(order, pairs, d.key, edge.key);
    }
    InsertKeepsSorted(edge, edges);
    var edges' := InsertByOrder(edge, edges);
    forall d
      ensures d in edges' <==> d == edge || d in edges
    {
      InsertElements(edge, edges, d);
    }
    forall p | p in done + {edge.key}
      ensures exists e :: e in edges' && e.key == p
    {
      if p == edge.key {
        assert edge in edges';
      } else {
        var e :| e in edges && e.key == p;
        assert e in edges';
      }
    }
  }

  /** The weighted edges of the pairs, in order of first appearance. */
  method CombineEdges(pairs: map<Pair, PairEvidence>, ghost order: seq<Pair>) returns (edges: seq<CombinedEdge>)
    requires Ascending(order, pairs) && Elements(order) == pairs.Keys
    ensures |edges| == |order|
    ensures forall i :: 0 <= i < |edges| ==>
              edges[i].key == order[i] && order[i] in pairs && edges[i].confidence == NoisyOr(pairs[order[i]].bySource)
  {
    edges := [];
    var rest := pairs.Keys;
    while rest != {}
      invariant rest <= pairs.Keys
      invariant Lists(edges, pairs.Keys - rest, pairs)
    {
      var key :| key in rest;
      var confidence := CombineSources(pairs[key].bySource);
      var edge := CombinedEdge(key, confidence, pairs[key].firstOrder);
      ListsOneMore(edges, pairs.Keys - rest, order, pairs, edge);
      assert pairs.Keys - (rest - {key}) == pairs.Keys - rest + {key};
      edges := InsertByOrder(edge, edges);
      rest := rest - {key};
    }
    assert pairs.Keys - rest == pairs.Keys;
    EdgesFollowOrder(edges, order, pairs);
  }

  lemma EdgesFollowOrder(edges: seq<CombinedEdge>, order: seq<Pair>, pairs: map<Pair, PairEvidence>)
    requires Ascending(order, pairs) && Elements(order) == pairs.Keys
    requires Sorted(edges)
    requires forall e :: e in edges ==> e.key in pairs && e.firstOrder == pairs[e.key].firstOrder
    requires forall p :: p in pairs ==> exists e :: e in edges && e.key == p
    ensures |edges| == |order|
    ensures forall i :: 0 <= i < |edges| ==> edges[i] in edges && edges[i].key == order[i]
  {
    var keys := seq(|edges|, i requires 0 <= i < |edges| => edges[i].key);
    assert forall i :: 0 <= i < |edges| ==> edges[i] in edges && keys[i] == edges[i].key;
    forall p
      ensures p in keys <==> p in order
    {
      assert p in order <==> p in Elements(order);
      if p in pairs {
        var e :| e in edges && e.key == p;
        var i :| 0 <= i < |edges| && edges[i] == e;
        assert keys[i] == p;
      }
    }
    AscendingUnique(keys, order, pairs);
  }

  lemma OrdersDiffer(order: seq<Pair>, pairs: map<Pair, PairEvidence>, p: Pair, q: Pair)
    requires Ascending(order, pairs) && Elements(order) == pairs.Keys
    requires p in pairs && q in pairs && p != q
    ensures pairs[p].firstOrder != pairs[q].firstOrder
  {
    var i := PositionOf(order, p);
    var j := PositionOf(order, q);
    assert i < j ==> pairs[order[i]].firstOrder < pairs[order[j]].firstOrder;
    assert j < i ==> pairs[order[j]].firstOrder < pairs[order[i]].firstOrder;
  }

  lemma PositionOf(order: seq<Pair>, p: Pair) returns (i: nat)
    requires p in Elements(order)
    ensures i < |order| && order[i] == p
  {
    i :| 0 <= i < |order| && order[i] == p;
  }

  lemma LastIsGreatest(s: seq<Pair>, pairs: map<Pair, PairEvidence>, p: Pair)
    requires Ascending(s, pairs) && p in s
    ensures p in pairs && Last(s) in pairs && pairs[p].firstOrder <= pairs[Last(s)].firstOrder
    ensures pairs[p].firstOrder == pairs[Last(s)].firstOrder ==> p == Last(s)
    ensures p in Init(s) <==> p != Last(s)
  {
    assert s == Init(s) + [Last(s)];
    var i :| 0 <= i < |s| && s[i] == p;
    if i < |s| - 1 {
      assert pairs[s[i]].firstOrder < pairs[s[|s| - 1]].firstOrder;
    }
    if p in Init(s) {
      var j :| 0 <= j < |s| - 1 && Init(s)[j] == p;
      assert pairs[s[j]].firstOrder < pairs[s[|s| - 1]].firstOrder;
    }
  }

  lemma AscendingInit(s: seq<Pair>, t: seq<Pair>, pairs: map<Pair, PairEvidence>)
    requires Ascending(s, pairs) && Ascending(t, pairs)
    requires s != [] && t != []
    requires forall p :: p in s <==> p in t
    ensures Last(s) == Last(t)
    ensures forall p :: p in Init(s) <==> p in Init(t)
    ensures Ascending(Init(s), pairs) && Ascending(Init(t), pairs)
  {
    assert forall p :: p in Init(s) ==> p in s;
    assert forall p :: p in Init(t) ==> p in t;
    assert Last(s) in t && Last(t) in s;
    LastIsGreatest(s, pairs, Last(t));
    LastIsGreatest(t, pairs, Last(s));
    forall p
      ensures p in Init(s) <==> p in Init(t)
    {
      assert (p in Init(s) ==> p in s) && (p in Init(t) ==> p in t);
      if p in s {
        LastIsGreatest(s, pairs, p);
        LastIsGreatest(t, pairs, p);
      }
    }
  }

  /** Sorting by distinct keys leaves no choice. */
  lemma {:induction false} AscendingUnique(s: seq<Pair>, t: seq<Pair>, pairs: map<Pair, PairEvidence>)
    requires Ascending(s, pairs) && Ascending(t, pairs)
    requires forall p :: p in s <==> p in t
    ensures s == t
  {
    assert (s != [] ==> s[0] in s) && (t != [] ==> t[0] in t);
    if s != [] {
      AscendingInit(s, t, pairs);
      AscendingUnique(Init(s), Init(t), pairs);
      assert s == Init(s) + [Last(s)] && t == Init(t) + [Last(t)];
    }
  }
}
