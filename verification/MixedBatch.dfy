/**
 A batch that mixes chains, from the messages that make the batcher hand it back to the cache that its
 run leaves stale.
 */
module MixedBatch {
  import opened Sequences
  import opened Domain
  import opened Ledger
  import opened CommonInput
  import opened Pipeline
  import opened Consumer
  import opened EndToEnd

  lemma TwoMembers(s: seq<string>, x: string, y: string)
    requires x in s && y in s && x != y
    ensures |s| >= 2
  {
  }

  lemma CoSpendersAreInputs(g: TxGroup, hubs: HubSet, d: BalanceDelta)
    requires d in g.deltas && Spends(d) && (g.key.chainId, d.address) !in hubs
    ensures d.address in Inputs(g, hubs)
  {
    SpendersFacts(g.deltas);
    FilterElements(Spenders(g.deltas), NotHub(hubs, g.key.chainId));
  }

  lemma GroupOfTx(deltas: seq<BalanceDelta>, d: BalanceDelta) returns (g: TxGroup)
    requires d in deltas
    ensures g in GroupsOf(deltas) && g.key == KeyOf(d)
    ensures forall e :: e in g.deltas <==> e in deltas && KeyOf(e) == KeyOf(d)
  {
    TxOrderFacts(deltas);
    assert KeyOf(d) in TxOrder(deltas);
    var i :| 0 <= i < |TxOrder(deltas)| && TxOrder(deltas)[i] == KeyOf(d);
    g := GroupsOf(deltas)[i];
    FilterElements(deltas, InTx(KeyOf(d)));
  }

  /** Two spenders of one transaction lead to a claim on its chain. */
  lemma CoSpendersAreClaimed(deltas: seq<BalanceDelta>, excluded: set<TxKey>, hubs: HubSet, confidence: real, d: BalanceDelta, e: BalanceDelta)
    returns (c: MergeCandidate)
    requires d in deltas && e in deltas && KeyOf(d) == KeyOf(e) && d.address != e.address && Spends(d) && Spends(e)
    requires KeyOf(d) !in excluded && (d.chainId, d.address) !in hubs && (e.chainId, e.address) !in hubs
    ensures c in Stars(GroupsOf(deltas), excluded, hubs, confidence) && c.chainId == d.chainId
  {
    var g := GroupOfTx(deltas, d);
    CoSpendersAreInputs(g, hubs, d);
    CoSpendersAreInputs(g, hubs, e);
    TwoMembers(Inputs(g, hubs), d.address, e.address);
    c := Star(g, Inputs(g, hubs), confidence)[0];
    StarsFacts(GroupsOf(deltas), excluded, hubs, confidence);
    assert c in StarOf(g, excluded, hubs, confidence);
  }

  /** The candidates of a batch run with the common-input heuristic alone, recorded as they come. */
  ghost predicate RunRecords(deltas: seq<BalanceDelta>, hubs: HubSet, confidence: real, claims: seq<MergeCandidate>) {
    exists later: int -> HubSet {:trigger Accepted(Stars(GroupsOf(deltas), {}, hubs, confidence), later)} ::
      claims == Accepted(Stars(GroupsOf(deltas), {}, hubs, confidence), later)
  }

  /** What a run of a batch records without any hub about. */
  lemma RunWithoutHubs(ms: seq<KafkaMessage>, deltas: seq<BalanceDelta>, confidence: real) returns (claims: seq<MergeCandidate>)
    requires Carry(ms, deltas)
    ensures claims == Stars(GroupsOf(deltas), {}, {}, confidence)
    ensures RunRecords(deltas, {}, confidence, claims) && Sourced(claims, ms)
    ensures forall c :: c in claims ==> c.addressA != c.addressB
  {
    var later: int -> HubSet := (i: int) => {};
    claims := Stars(GroupsOf(deltas), {}, {}, confidence);
    StarsAreAccepted(GroupsOf(deltas), {}, {}, confidence, later);
    AcceptedElements(claims, later);
    assert claims + [] == claims;
    RecordedClaimsAreSourced(ms, deltas, Some(confidence), {}, {}, [], claims, later);
  }

  /** What a batch leads to on any chain but the one it is run for names no block. */
  lemma ForeignClaimsNameNoBlock(chainId: string, ms: seq<KafkaMessage>, deltas: seq<BalanceDelta>, claims: seq<MergeCandidate>, c: MergeCandidate)
    requires Batched(chainId, ms, deltas) && Sourced(claims, ms) && c in claims && c.chainId != chainId
    ensures c.sourceBlockHash.Some? ==> c.sourceBlockHash.value == ""
  {
    assert Supplied(ms, c);
    var m :| m in ms && Supplies(m, c);
    var i :| 0 <= i < |ms| && ms[i] == m;
    assert CarriedAt(ms, deltas, i);
    ForeignDeltasAreUnhashed(chainId, ms, deltas, i);
  }

  /** Exactly when the run of a batch, for the chain it is handed back for, spares the cache of another
      chain: when none of the claims that it records is on that chain. */
  lemma RunSparesCacheIff(chainId: string, ms: seq<KafkaMessage>, deltas: seq<BalanceDelta>, cs: seq<MergeCandidate>,
                          later: int -> HubSet, other: string)
    requires Batched(chainId, ms, deltas) && other != chainId
    ensures SparesCache(chainId, Accepted(cs, later), other) <==> forall c :: c in Accepted(cs, later) ==> c.chainId != other
  {
    AcceptedElements(cs, later);
    SparesCacheIffNoForeignClaim(chainId, Accepted(cs, later), other);
  }

  /** Two unhashed deltas of one chain followed by one of another. */
  method HandBackMixedBatch() returns (batch: seq<BalanceDelta>, messages: seq<KafkaMessage>, chainId: string)
    ensures Batched(chainId, messages, batch) && |batch| == 3 && chainId == "btc"
    ensures batch[0] == BalanceDelta("eth", "tx1", 0, "A", Some(-1), 1, "")
    ensures batch[1] == BalanceDelta("eth", "tx1", 1, "B", Some(-1), 1, "")
  {
    var batcher := new Batcher();
    var d1 := BalanceDelta("eth", "tx1", 0, "A", Some(-1), 1, "");
    var d2 := BalanceDelta("eth", "tx1", 1, "B", Some(-1), 1, "");
    var d3 := BalanceDelta("btc", "tx2", 0, "C", Some(-1), 1, "h");
    var d4 := BalanceDelta("btc", "tx3", 0, "D", Some(-1), 2, "k");
    var m1, m2, m3 := MessageOf(1, d1), MessageOf(2, d2), MessageOf(3, d3);
    var _, _, _, _ := batcher.Add(d1, m1);
    var _, _, _, _ := batcher.Add(d2, m2);
    var _, _, _, _ := batcher.Add(d3, m3);
    var flushDeltas, flushMessages, flushChainId, _ := batcher.Add(d4, MessageOf(4, d4));
    batch, messages, chainId := flushDeltas, flushMessages, flushChainId;
    assert CarriedAt(messages, batch, 0) && CarriedAt(messages, batch, 1) && CarriedAt(messages, batch, 2);
  }

  function MessageOf(offset: int, d: BalanceDelta): KafkaMessage {
    KafkaMessage(offset, Some(Machine.DeltaMessage(d)))
  }

  /** The batch that mixes chains does arise, its run records a claim on the other chain, and the cache
      of that chain goes stale. */
  method MixedBatchLeavesStaleCache() returns (batch: seq<BalanceDelta>, messages: seq<KafkaMessage>, chainId: string,
                                               ghost claims: seq<MergeCandidate>, ghost s0: State, ghost s1: State)
    ensures Batched(chainId, messages, batch) && RunRecords(batch, {}, 0.95, claims) && Sourced(claims, messages)
    ensures AgreesOn(s0, "eth") && Step(s0, Record(chainId, claims), true, s1) && !AgreesOn(s1, "eth")
  {
    batch, messages, chainId := HandBackMixedBatch();
    claims := RunWithoutHubs(messages, batch, 0.95);
    ghost var c := CoSpendersAreClaimed(batch, {}, {}, 0.95, batch[0], batch[1]);
    s0, s1 := ForeignClaimLeavesStaleCache(chainId, claims, c);
  }
}
