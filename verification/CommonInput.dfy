/**
 Candidates from co-spenders: transactions are grouped in order of appearance, spenders deduplicated,
 hubs dropped, and the rest linked to the first one as a star.
 */
module CommonInput {
  import opened Sequences
  import opened Domain
  import opened ReplaySpec
  import opened ReplayPartition
  import opened ReplayConfidence
  import opened EvidenceLog

  datatype TxKey = TxKey(chainId: string, txId: string)

  datatype TxGroup = TxGroup(key: TxKey, deltas: seq<BalanceDelta>)

  type HubSet = set<(string, string)>

  const COMMON_INPUT: string := "common-input"

  function KeyOf(d: BalanceDelta): TxKey {
    TxKey(d.chainId, d.txId)
  }

  function InTx(key: TxKey): BalanceDelta -> bool {
    (d: BalanceDelta) => KeyOf(d) == key
  }

  // ---------- grouping ----------

  ghost function TxOrder(deltas: seq<BalanceDelta>): seq<TxKey> {
    if deltas == [] then [] else Touch(TxOrder(Init(deltas)), KeyOf(Last(deltas)))
  }

  /** groups holds one group per transaction, in order of first appearance, each with the deltas of
      its transaction in their original order. */
  ghost predicate Grouped(deltas: seq<BalanceDelta>, groups: seq<TxGroup>) {
    |groups| == |TxOrder(deltas)| &&
    forall i :: 0 <= i < |groups| ==>
      groups[i].key == TxOrder(deltas)[i] && groups[i].deltas == Filter(deltas, InTx(groups[i].key))
  }

  ghost predicate Indexes(index: map<TxKey, nat>, order: seq<TxKey>) {
    index.Keys == Elements(order) &&
    (forall k :: k in index ==> index[k] < |order| && order[index[k]] == k)
  }

  lemma {:induction false} TxOrderFacts(deltas: seq<BalanceDelta>)
    ensures Distinct(TxOrder(deltas))
    ensures forall k :: k in TxOrder(deltas) <==> exists d :: d in deltas && KeyOf(d) == k
  {
    if deltas != [] {
      TxOrderFacts(Init(deltas));
      DistinctTouch(TxOrder(Init(deltas)), KeyOf(Last(deltas)));
      assert deltas == Init(deltas) + [Last(deltas)];
      forall k
        ensures k in TxOrder(deltas) <==> exists d :: d in deltas && KeyOf(d) == k
      {
        TouchMember(TxOrder(Init(deltas)), KeyOf(Last(deltas)), k);
        assert Last(deltas) in deltas;
      }
    }
  }

  lemma KnownTx(deltas: seq<BalanceDelta>, groups: seq<TxGroup>, d: BalanceDelta, i: nat)
    requires Grouped(deltas, groups) && i < |groups| && groups[i].key == KeyOf(d)
    ensures Grouped(deltas + [d], groups[i := TxGroup(KeyOf(d), groups[i].deltas + [d])])
  {
    InitOfAppend(deltas, d);
    TxOrderFacts(deltas);
    assert TxOrder(deltas)[i] in TxOrder(deltas);
  }

  lemma NewTx(deltas: seq<BalanceDelta>, groups: seq<TxGroup>, d: BalanceDelta)
    requires Grouped(deltas, groups) && KeyOf(d) !in TxOrder(deltas)
    ensures Grouped(deltas + [d], groups + [TxGroup(KeyOf(d), [d])])
  {
    InitOfAppend(deltas, d);
    TxOrderFacts(deltas);
    FilterNone(deltas, InTx(KeyOf(d)));
    forall i | 0 <= i < |groups|
      ensures Filter(deltas + [d], InTx(groups[i].key)) == groups[i].deltas
    {
      assert TxOrder(deltas)[i] in TxOrder(deltas);
    }
  }

  lemma IndexesNext(index: map<TxKey, nat>, order: seq<TxKey>, key: TxKey)
    requires Indexes(index, order) && key !in order
    ensures Indexes(index[key := |order|], order + [key])
  {
    assert (order + [key])[|order|] == key;
    assert Elements(order + [key]) == Elements(order) + {key};
  }

  lemma IndexedIffSeen(index: map<TxKey, nat>, order: seq<TxKey>, key: TxKey)
    requires Indexes(index, order)
    ensures key in index <==> key in order
  {
    assert key in Elements(order) <==> key in order;
  }

  method GroupByTx(deltas: seq<BalanceDelta>) returns (groups: seq<TxGroup>)
    ensures Grouped(deltas, groups)
  {
    var index: map<TxKey, nat> := map[];
    groups := [];
    for n := 0 to |deltas|
      invariant Grouped(deltas[..n], groups)
      invariant Indexes(index, TxOrder(deltas[..n]))
    {
      var d := deltas[n];
      var key := KeyOf(d);
      assert deltas[..n + 1] == deltas[..n] + [d];
      InitOfAppend(deltas[..n], d);
      IndexedIffSeen(index, TxOrder(deltas[..n]), key);
      if key in index {
        var i := index[key];
        KnownTx(deltas[..n], groups, d, i);
        groups := groups[i := TxGroup(key, groups[i].deltas + [d])];
      } else {
        NewTx(deltas[..n], groups, d);
        IndexesNext(index, TxOrder(deltas[..n]), key);
        index := index[key := |groups|];
        groups := groups + [TxGroup(key, [d])];
      }
    }
    assert deltas[..|deltas|] == deltas;
  }

  // ---------- spenders ----------

  predicate Spends(d: BalanceDelta) {
    d.amount.Some? && d.amount.value < 0
  }

  /** The spending addresses, in order of first appearance. */
  ghost function Spenders(deltas: seq<BalanceDelta>): seq<string> {
    if deltas == [] then []
    else if Spends(Last(deltas)) then Touch(Spenders(Init(deltas)), Last(deltas).address)
    else Spenders(Init(deltas))
  }

  lemma {:induction false} SpendersFacts(deltas: seq<BalanceDelta>)
    ensures Distinct(Spenders(deltas))
    ensures forall x :: x in Spenders(deltas) <==> exists d :: d in deltas && Spends(d) && d.address == x
  {
    if deltas != [] {
      SpendersFacts(Init(deltas));
      DistinctTouch(Spenders(Init(deltas)), Last(deltas).address);
      assert deltas == Init(deltas) + [Last(deltas)];
      forall x
        ensures x in Spenders(deltas) <==> exists d :: d in deltas && Spends(d) && d.address == x
      {
        TouchMember(Spenders(Init(deltas)), Last(deltas).address, x);
        assert Last(deltas) in deltas;
      }
    }
  }

  method SpentAddresses(txDeltas: seq<BalanceDelta>) returns (out: seq<string>)
    ensures out == Spenders(txDeltas)
  {
    var seen: set<string> := {};
    out := [];
    for n := 0 to |txDeltas|
      invariant out == Spenders(txDeltas[..n])
      invariant seen == Elements(out)
    {
      var d := txDeltas[n];
      assert txDeltas[..n + 1] == txDeltas[..n] + [d];
      InitOfAppend(txDeltas[..n], d);
      if d.amount.None? || d.amount.value >= 0 {
        continue;
      }
      if d.address !in seen {
        assert out + [d.address] == Touch(out, d.address);
        seen := seen + {d.address};
        out := out + [d.address];
      } else {
        assert d.address in Elements(out);
      }
    }
    assert txDeltas[..|txDeltas|] == txDeltas;
  }

  // ---------- the star ----------

  function NotHub(hubs: HubSet, chainId: string): string -> bool {
    (x: string) => (chainId, x) !in hubs
  }

  function Candidate(key: TxKey, first: BalanceDelta, confidence: real, a: string, b: string): MergeCandidate {
    MergeCandidate(key.chainId, a, b, COMMON_INPUT, Some(key.txId), Some(first.blockHash), Some(first.blockHeight), confidence)
  }

  /** The non-hub spenders of a transaction. */
  ghost function Inputs(g: TxGroup, hubs: HubSet): seq<string> {
    Filter(Spenders(g.deltas), NotHub(hubs, g.key.chainId))
  }

  ghost predicate WellFormed(groups: seq<TxGroup>) {
    forall g :: g in groups ==> g.deltas != []
  }

  /** One candidate from the first input to each later one. */
  ghost function Star(g: TxGroup, ins: seq<string>, confidence: real): (cs: seq<MergeCandidate>)
    requires g.deltas != []
    ensures |cs| == if |ins| < 2 then 0 else |ins| - 1
  {
    if |ins| < 2 then []
    else seq(|ins| - 1, i requires 0 <= i < |ins| - 1 => Candidate(g.key, g.deltas[0], confidence, ins[0], ins[i + 1]))
  }

  ghost function StarOf(g: TxGroup, excluded: set<TxKey>, hubs: HubSet, confidence: real): seq<MergeCandidate>
    requires g.deltas != []
  {
    if g.key in excluded then [] else Star(g, Inputs(g, hubs), confidence)
  }

  ghost function Stars(groups: seq<TxGroup>, excluded: set<TxKey>, hubs: HubSet, confidence: real): seq<MergeCandidate>
    requires WellFormed(groups)
  {
    if groups == [] then []
    else
      InitElements(groups);
      Stars(Init(groups), excluded, hubs, confidence) + StarOf(Last(groups), excluded, hubs, confidence)
  }

  lemma GroupsWellFormed(deltas: seq<BalanceDelta>, groups: seq<TxGroup>)
    requires Grouped(deltas, groups)
    ensures WellFormed(groups)
  {
    TxOrderFacts(deltas);
    forall g | g in groups
      ensures g.deltas != []
    {
      var i :| 0 <= i < |groups| && groups[i] == g;
      assert TxOrder(deltas)[i] in TxOrder(deltas);
      var d :| d in deltas && KeyOf(d) == g.key;
      FilterElements(deltas, InTx(g.key));
      assert d in g.deltas;
    }
  }

  method StarOfGroup(g: TxGroup, hubs: HubSet, confidence: real) returns (r: Outcome<seq<MergeCandidate>>)
    requires g.deltas != []
    ensures r.Ok? ==> r.value == Star(g, Inputs(g, hubs), confidence)
  {
    var spenders := SpentAddresses(g.deltas);
    var ins: seq<string> := [];
    for n := 0 to |spenders|
      invariant ins == Filter(spenders[..n], NotHub(hubs, g.key.chainId))
    {
      var lookupFails := *;
      if lookupFails {
        return Err;
      }
      assert spenders[..n + 1] == spenders[..n] + [spenders[n]];
      InitOfAppend(spenders[..n], spenders[n]);
      if (g.key.chainId, spenders[n]) !in hubs {
        ins := ins + [spenders[n]];
      }
    }
    assert spenders[..|spenders|] == spenders;
    if |ins| < 2 {
      return Ok([]);
    }
    var candidates: seq<MergeCandidate> := [];
    for n := 1 to |ins|
      invariant |candidates| == n - 1
      invariant forall i :: 0 <= i < n - 1 ==> candidates[i] == Candidate(g.key, g.deltas[0], confidence, ins[0], ins[i + 1])
    {
      candidates := candidates + [Candidate(g.key, g.deltas[0], confidence, ins[0], ins[n])];
    }
    return Ok(candidates);
  }

  /** The groups of a batch. */
  ghost function GroupsOf(deltas: seq<BalanceDelta>): (groups: seq<TxGroup>)
    ensures Grouped(deltas, groups) && WellFormed(groups)
  {
    var order := TxOrder(deltas);
    var groups := seq(|order|, i requires 0 <= i < |order| => TxGroup(order[i], Filter(deltas, InTx(order[i]))));
    GroupsWellFormed(deltas, groups);
    groups
  }

  lemma GroupedIsUnique(deltas: seq<BalanceDelta>, groups: seq<TxGroup>)
    requires Grouped(deltas, groups)
    ensures groups == GroupsOf(deltas)
  {
    forall i | 0 <= i < |groups|
      ensures groups[i] == GroupsOf(deltas)[i]
    {
      assert groups[i].key == GroupsOf(deltas)[i].key;
    }
  }

  /** The candidates of a batch: one star per transaction that is not excluded. setting is the
      chain's registered confidence, if the heuristic is enabled there. */
  method Generate(deltas: seq<BalanceDelta>, setting: Option<real>, excluded: set<TxKey>, hubs: HubSet)
    returns (r: Outcome<seq<MergeCandidate>>)
    ensures r.Ok? ==> r.value == if setting.None? then [] else Stars(GroupsOf(deltas), excluded, hubs, setting.value)
  {
    if |deltas| == 0 {
      return Ok([]);
    }
    var lookupFails := *;
    if lookupFails {
      return Err;
    }
    if setting.None? {
      return Ok([]);
    }
    var txs := GroupByTx(deltas);
    GroupsWellFormed(deltas, txs);
    var candidates: seq<MergeCandidate> := [];
    for n := 0 to |txs|
      invariant WellFormed(txs[..n])
      invariant candidates == Stars(txs[..n], excluded, hubs, setting.value)
    {
      var tx := txs[n];
      assert txs[..n + 1] == txs[..n] + [tx];
      InitOfAppend(txs[..n], tx);
      var exclusionFails := *;
      if exclusionFails {
        return Err;
      }
      if tx.key in excluded {
        continue;
      }
      var star := StarOfGroup(tx, hubs, setting.value);
      if star.Err? {
        return Err;
      }
      candidates := candidates + star.value;
    }
    assert txs[..|txs|] == txs;
    GroupedIsUnique(deltas, txs);
    return Ok(candidates);
  }

  // ---------- a star links as much as all pairs ----------

  /** c links two inputs of one transaction of the batch. */
  ghost predicate LinksInputs(groups: seq<TxGroup>, excluded: set<TxKey>, hubs: HubSet, a: string, b: string) {
    exists g, i, j :: g in groups && g.key !in excluded &&
      0 <= i < j < |Inputs(g, hubs)| && Inputs(g, hubs)[i] == a && Inputs(g, hubs)[j] == b
  }

  lemma InputsFacts(g: TxGroup, hubs: HubSet)
    ensures Distinct(Inputs(g, hubs))
    ensures forall x :: x in Inputs(g, hubs) ==> (g.key.chainId, x) !in hubs
  {
    SpendersFacts(g.deltas);
    FilterElements(Spenders(g.deltas), NotHub(hubs, g.key.chainId));
    FilterDistinct(Spenders(g.deltas), NotHub(hubs, g.key.chainId));
  }

  lemma {:induction false} FilterDistinct<T>(s: seq<T>, keep: T -> bool)
    requires Distinct(s)
    ensures Distinct(Filter(s, keep))
  {
    if s != [] {
      FilterDistinct(Init(s), keep);
      FilterElements(Init(s), keep);
    }
  }

  /** What the candidates of a batch are. */
  lemma {:induction false} StarsFacts(groups: seq<TxGroup>, excluded: set<TxKey>, hubs: HubSet, confidence: real)
    requires WellFormed(groups)
    ensures forall c :: c in Stars(groups, excluded, hubs, confidence) <==>
              exists g :: g in groups && c in StarOf(g, excluded, hubs, confidence)
  {
    if groups != [] {
      assert groups == Init(groups) + [Last(groups)];
      InitElements(groups);
      StarsFacts(Init(groups), excluded, hubs, confidence);
    }
  }

  lemma StarMember(g: TxGroup, hubs: HubSet, confidence: real, c: MergeCandidate) returns (j: nat)
    requires g.deltas != [] && c in Star(g, Inputs(g, hubs), confidence)
    ensures 0 < j < |Inputs(g, hubs)|
    ensures c == Candidate(g.key, g.deltas[0], confidence, Inputs(g, hubs)[0], Inputs(g, hubs)[j])
  {
    var cs := Star(g, Inputs(g, hubs), confidence);
    var n :| 0 <= n < |cs| && cs[n] == c;
    j := n + 1;
  }

  lemma InputsDiffer(g: TxGroup, hubs: HubSet, i: nat, j: nat)
    requires i < j < |Inputs(g, hubs)|
    ensures Inputs(g, hubs)[i] != Inputs(g, hubs)[j]
    ensures (g.key.chainId, Inputs(g, hubs)[i]) !in hubs && (g.key.chainId, Inputs(g, hubs)[j]) !in hubs
  {
    InputsFacts(g, hubs);
    assert Inputs(g, hubs)[i] in Inputs(g, hubs) && Inputs(g, hubs)[j] in Inputs(g, hubs);
  }

  /** Every candidate joins two distinct non-hub inputs of a transaction, on its chain, block and
      transaction. */
  lemma StarCandidate(groups: seq<TxGroup>, excluded: set<TxKey>, hubs: HubSet, confidence: real, c: MergeCandidate)
    requires WellFormed(groups) && c in Stars(groups, excluded, hubs, confidence)
    ensures LinksInputs(groups, excluded, hubs, c.addressA, c.addressB)
    ensures c.addressA != c.addressB && (c.chainId, c.addressA) !in hubs && (c.chainId, c.addressB) !in hubs
    ensures c.confidence == confidence && c.sourceTxId.Some?
    ensures exists g :: g in groups && g.deltas != [] && c.chainId == g.key.chainId && c.sourceTxId == Some(g.key.txId) &&
                        c.sourceBlockHash == Some(g.deltas[0].blockHash)
  {
    StarsFacts(groups, excluded, hubs, confidence);
    var g :| g in groups && c in StarOf(g, excluded, hubs, confidence);
    var j := StarMember(g, hubs, confidence, c);
    InputsDiffer(g, hubs, 0, j);
  }

  /** pairs link exactly the pairs of inputs of the batch. */
  ghost predicate AllPairs(pairs: seq<MergeEvidence>, groups: seq<TxGroup>, excluded: set<TxKey>, hubs: HubSet) {
    (forall e :: e in pairs ==> e.status == Active && LinksInputs(groups, excluded, hubs, e.claim.addressA, e.claim.addressB)) &&
    forall a, b :: LinksInputs(groups, excluded, hubs, a, b) ==>
      exists e :: e in pairs && e.claim.addressA == a && e.claim.addressB == b
  }

  lemma TogetherTransitive(es: seq<MergeEvidence>, x: string, y: string, z: string)
    requires Together(es, x, y) && Together(es, x, z)
    ensures Together(es, y, z)
  {
    TogetherIffJoined(es, x, y);
    TogetherIffJoined(es, x, z);
    TogetherIffJoined(es, y, z);
  }

  lemma StarReaches(es: seq<MergeEvidence>, stars: seq<MergeEvidence>, groups: seq<TxGroup>, excluded: set<TxKey>, hubs: HubSet,
                    confidence: real, g: TxGroup, j: nat)
    requires WellFormed(groups) && Recorded(stars, Stars(groups, excluded, hubs, confidence))
    requires g in groups && g.key !in excluded && 0 < j < |Inputs(g, hubs)|
    ensures Together(es + stars, Inputs(g, hubs)[0], Inputs(g, hubs)[j])
  {
    var ins := Inputs(g, hubs);
    var c := Candidate(g.key, g.deltas[0], confidence, ins[0], ins[j]);
    assert Star(g, ins, confidence)[j - 1] == c;
    StarsFacts(groups, excluded, hubs, confidence);
    assert c in StarOf(g, excluded, hubs, confidence);
    assert c in Stars(groups, excluded, hubs, confidence);
    var n :| 0 <= n < |stars| && Stars(groups, excluded, hubs, confidence)[n] == c;
    InputsDiffer(g, hubs, 0, j);
    assert stars[n] in es + stars;
    RowTogether(es + stars, stars[n]);
  }

  /** Recording the stars of a batch groups addresses exactly as recording every pair of co-spenders
      would. */
  lemma StarEqualsAllPairs(es: seq<MergeEvidence>, stars: seq<MergeEvidence>, pairs: seq<MergeEvidence>,
                           groups: seq<TxGroup>, excluded: set<TxKey>, hubs: HubSet, confidence: real, x: string, y: string)
    requires WellFormed(groups)
    requires Recorded(stars, Stars(groups, excluded, hubs, confidence))
    requires AllPairs(pairs, groups, excluded, hubs)
    ensures Together(es + stars, x, y) <==> Together(es + pairs, x, y)
  {
    forall e | e in es + stars && Useful(e)
      ensures Together(es + pairs, e.claim.addressA, e.claim.addressB)
    {
      StarRowCovered(es, stars, pairs, groups, excluded, hubs, confidence, e);
    }
    forall e | e in es + pairs && Useful(e)
      ensures Together(es + stars, e.claim.addressA, e.claim.addressB)
    {
      PairRowCovered(es, stars, pairs, groups, excluded, hubs, confidence, e);
    }
    if Together(es + stars, x, y) {
      TogetherIsLeast(es + stars, es + pairs, x, y);
    }
    if Together(es + pairs, x, y) {
      TogetherIsLeast(es + pairs, es + stars, x, y);
    }
  }

  lemma StarRowCovered(es: seq<MergeEvidence>, stars: seq<MergeEvidence>, pairs: seq<MergeEvidence>,
                       groups: seq<TxGroup>, excluded: set<TxKey>, hubs: HubSet, confidence: real, e: MergeEvidence)
    requires WellFormed(groups)
    requires Recorded(stars, Stars(groups, excluded, hubs, confidence))
    requires AllPairs(pairs, groups, excluded, hubs)
    requires e in es + stars && Useful(e)
    ensures Together(es + pairs, e.claim.addressA, e.claim.addressB)
  {
    if e in es {
      assert e in es + pairs;
      RowTogether(es + pairs, e);
    } else {
      var n :| 0 <= n < |stars| && stars[n] == e;
      StarCandidate(groups, excluded, hubs, confidence, Stars(groups, excluded, hubs, confidence)[n]);
      var f :| f in pairs && f.claim.addressA == e.claim.addressA && f.claim.addressB == e.claim.addressB;
      assert f in es + pairs;
      RowTogether(es + pairs, f);
    }
  }

  lemma PairRowCovered(es: seq<MergeEvidence>, stars: seq<MergeEvidence>, pairs: seq<MergeEvidence>,
                       groups: seq<TxGroup>, excluded: set<TxKey>, hubs: HubSet, confidence: real, e: MergeEvidence)
    requires WellFormed(groups)
    requires Recorded(stars, Stars(groups, excluded, hubs, confidence))
    requires AllPairs(pairs, groups, excluded, hubs)
    requires e in es + pairs && Useful(e)
    ensures Together(es + stars, e.claim.addressA, e.claim.addressB)
  {
    if e in es {
      assert e in es + stars;
      RowTogether(es + stars, e);
    } else {
      var g, i, j :| g in groups && g.key !in excluded && 0 <= i < j < |Inputs(g, hubs)| &&
        Inputs(g, hubs)[i] == e.claim.addressA && Inputs(g, hubs)[j] == e.claim.addressB;
      StarReaches(es, stars, groups, excluded, hubs, confidence, g, j);
      if i > 0 {
        StarReaches(es, stars, groups, excluded, hubs, confidence, g, i);
        TogetherTransitive(es + stars, Inputs(g, hubs)[0], e.claim.addressA, e.claim.addressB);
      }
    }
  }

  /** The star uses one row less per transaction than it has inputs. */
  ghost function RowsNeeded(groups: seq<TxGroup>, excluded: set<TxKey>, hubs: HubSet): nat {
    if groups == [] then 0
    else
      var k := |Inputs(Last(groups), hubs)|;
      RowsNeeded(Init(groups), excluded, hubs) + (if Last(groups).key in excluded || k == 0 then 0 else k - 1)
  }

  lemma {:induction false} StarSize(groups: seq<TxGroup>, excluded: set<TxKey>, hubs: HubSet, confidence: real)
    requires WellFormed(groups)
    ensures |Stars(groups, excluded, hubs, confidence)| == RowsNeeded(groups, excluded, hubs)
  {
    if groups != [] {
      InitElements(groups);
      StarSize(Init(groups), excluded, hubs, confidence);
    }
  }
}
