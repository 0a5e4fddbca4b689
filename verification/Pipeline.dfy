/**
 Recording a batch: candidates are checked again for hubs, appended in order, and the cache is
 rebuilt last.
 */
module Pipeline {
  import opened Sequences
  import opened Domain
  import opened ReplaySpec
  import opened ReplayAppend
  import opened EvidenceLog
  import opened ClusterTables
  import opened Ledger
  import opened CommonInput

  function Admissible(hubs: HubSet): MergeCandidate -> bool {
    (c: MergeCandidate) =>
      c.addressA != c.addressB && (c.chainId, c.addressA) !in hubs && (c.chainId, c.addressB) !in hubs
  }

  /** The candidates that get recorded, where hubs(i) are the hubs when candidate i is. */
  function Accepted(cs: seq<MergeCandidate>, hubs: int -> HubSet): seq<MergeCandidate> {
    if cs == [] then []
    else Accepted(Init(cs), hubs) + if Admissible(hubs(|cs| - 1))(Last(cs)) then [Last(cs)] else []
  }

  lemma {:induction false} AcceptedElements(cs: seq<MergeCandidate>, hubs: int -> HubSet)
    ensures |Accepted(cs, hubs)| <= |cs|
    ensures forall c :: c in Accepted(cs, hubs) ==> c in cs && c.addressA != c.addressB
  {
    if cs != [] {
      AcceptedElements(Init(cs), hubs);
      assert cs == Init(cs) + [Last(cs)];
    }
  }

  ghost predicate AcceptedAt(cs: seq<MergeCandidate>, hubs: int -> HubSet, i: int)
    requires 0 <= i < |cs|
  {
    Admissible(hubs(i))(cs[i])
  }

  lemma {:induction false} AllAccepted(cs: seq<MergeCandidate>, hubs: int -> HubSet)
    requires forall i :: 0 <= i < |cs| ==> AcceptedAt(cs, hubs, i)
    ensures Accepted(cs, hubs) == cs
  {
    if cs != [] {
      forall i | 0 <= i < |Init(cs)|
        ensures AcceptedAt(Init(cs), hubs, i)
      {
        assert AcceptedAt(cs, hubs, i);
      }
      AllAccepted(Init(cs), hubs);
      assert AcceptedAt(cs, hubs, |cs| - 1);
    }
  }

  /** Where no flag has been set since generation, recording loses none of the stars. */
  lemma StarsAreAccepted(groups: seq<TxGroup>, excluded: set<TxKey>, hubs: HubSet, confidence: real, later: int -> HubSet)
    requires WellFormed(groups) && forall i :: later(i) <= hubs
    ensures Accepted(Stars(groups, excluded, hubs, confidence), later) == Stars(groups, excluded, hubs, confidence)
  {
    var cs := Stars(groups, excluded, hubs, confidence);
    forall i | 0 <= i < |cs|
      ensures AcceptedAt(cs, later, i)
    {
      assert cs[i] in cs;
      StarCandidate(groups, excluded, hubs, confidence, cs[i]);
    }
    AllAccepted(cs, later);
  }

  lemma {:induction false} AcceptedPrefix(cs: seq<MergeCandidate>, n: nat, hubs: int -> HubSet)
    requires n <= |cs|
    ensures Accepted(cs[..n], hubs) <= Accepted(cs, hubs)
    decreases |cs|
  {
    if n == |cs| {
      assert cs[..n] == cs;
    } else {
      assert Init(cs)[..n] == cs[..n];
      AcceptedPrefix(Init(cs), n, hubs);
    }
  }

  /** Processing a batch again while its first rows are still active leaves every cluster and every
      confidence as it is, whatever the heuristics: all of them name the transaction of a candidate. */
  lemma BatchRedelivery(es: seq<MergeEvidence>, again: seq<MergeEvidence>, cs: seq<MergeCandidate>, hubs: int -> HubSet)
    requires forall c :: c in cs ==> c.sourceTxId.Some?
    requires forall c :: c in Accepted(cs, hubs) ==> exists f :: f in es && f.status == Active && f.claim == c
    requires Recorded(again, Accepted(cs, hubs))
    ensures Clusters(es + again) == Clusters(es)
  {
    AcceptedElements(cs, hubs);
    forall e | e in again
      ensures Repeats(es, e)
    {
      var n :| 0 <= n < |again| && again[n] == e;
      var c := Accepted(cs, hubs)[n];
      assert IsFresh(again[n], c) && c in Accepted(cs, hubs);
      var f :| f in es && f.status == Active && f.claim == c;
      assert Useful(f) && RowPair(f) == RowPair(e);
    }
    RedeliveryIsHarmless(es, again);
  }

  class MergeEngine {
    const evidence: EvidenceStore

    constructor (evidence: EvidenceStore)
      ensures this.evidence == evidence
    {
      this.evidence := evidence;
    }

    /** Appends the candidate unless it is a self-loop or touches a hub; None means rejected. */
    method RecordAndMerge(c: MergeCandidate, hubs: HubSet) returns (r: Outcome<Option<int>>)
      requires evidence.Valid()
      modifies evidence
      ensures evidence.Valid()
      ensures r.Err? ==> evidence.rows == old(evidence.rows) || (Admissible(hubs)(c) && Appended(old(evidence.rows), [c], evidence.rows))
      ensures r.Ok? ==> (r.value.Some? <==> Admissible(hubs)(c))
      ensures r.Ok? && r.value.None? ==> evidence.rows == old(evidence.rows)
      ensures r.Ok? && r.value.Some? ==> evidence.rows == old(evidence.rows) + [MergeEvidence(r.value.value, c, Active, None)]
    {
      if c.addressA == c.addressB {
        return Ok(None);
      }
      var lookupAFails, lookupBFails := *, *;
      if lookupAFails {
        return Err;
      }
      var hubA := (c.chainId, c.addressA) in hubs;
      if lookupBFails {
        return Err;
      }
      var hubB := (c.chainId, c.addressB) in hubs;
      if hubA || hubB {
        return Ok(None);
      }
      var op := evidence.Append(c);
      if op.Err? {
        return Err;
      }
      return Ok(Some(op.value));
    }

    /** Records the candidates in order, asking for the hubs anew for each. On failure a prefix of the accepted ones is recorded, which
        may be one longer than what was counted. */
    method RecordAndMergeBatch(cs: seq<MergeCandidate>, hubs: int -> HubSet) returns (ok: bool, recorded: nat, rejected: nat)
      requires evidence.Valid()
      modifies evidence
      ensures evidence.Valid()
      ensures PrefixRecorded(old(evidence.rows), cs, hubs, evidence.rows)
      ensures recorded <= |evidence.rows| - |old(evidence.rows)| <= recorded + 1
      ensures ok ==> |evidence.rows| == |old(evidence.rows)| + recorded
      ensures ok ==> recorded == |Accepted(cs, hubs)| && recorded + rejected == |cs|
    {
      recorded, rejected := 0, 0;
      ghost var rows := evidence.rows;
      AppendedNothing(rows);
      for i := 0 to |cs|
        invariant evidence.Valid()
        invariant recorded == |Accepted(cs[..i], hubs)| && recorded + rejected == i
        invariant Appended(rows, Accepted(cs[..i], hubs), evidence.rows)
      {
        ghost var before := evidence.rows;
        var r := RecordAndMerge(cs[i], hubs(i));
        RecordedNext(rows, cs, i, hubs, before, evidence.rows);
        if r.Err? {
          return false, recorded, rejected;
        }
        if r.value.Some? {
          recorded := recorded + 1;
        } else {
          rejected := rejected + 1;
        }
      }
      assert cs[..|cs|] == cs;
      WholeIsPrefix(rows, cs, hubs, evidence.rows);
      ok := true;
    }
  }

  /** rows' is rows followed by rows for the first few accepted candidates. */
  ghost predicate PrefixRecorded(rows: seq<MergeEvidence>, cs: seq<MergeCandidate>, hubs: int -> HubSet, rows': seq<MergeEvidence>) {
    |rows| <= |rows'| <= |rows| + |Accepted(cs, hubs)| && Appended(rows, Accepted(cs, hubs)[..|rows'| - |rows|], rows')
  }

  lemma WholeIsPrefix(rows: seq<MergeEvidence>, cs: seq<MergeCandidate>, hubs: int -> HubSet, rows': seq<MergeEvidence>)
    requires Appended(rows, Accepted(cs, hubs), rows')
    ensures PrefixRecorded(rows, cs, hubs, rows')
  {
    assert Accepted(cs, hubs)[..|rows'| - |rows|] == Accepted(cs, hubs);
  }

  lemma ShorterIsPrefix(rows: seq<MergeEvidence>, cs: seq<MergeCandidate>, i: nat, hubs: int -> HubSet, rows': seq<MergeEvidence>)
    requires i <= |cs| && Appended(rows, Accepted(cs[..i], hubs), rows')
    ensures PrefixRecorded(rows, cs, hubs, rows')
  {
    AcceptedPrefix(cs, i, hubs);
    assert Accepted(cs, hubs)[..|rows'| - |rows|] == Accepted(cs[..i], hubs);
  }

  /** Where recording candidate i may lead: to nothing new, or to its row if it is admissible. */
  lemma RecordedNext(rows: seq<MergeEvidence>, cs: seq<MergeCandidate>, i: nat, hubs: int -> HubSet,
                     before: seq<MergeEvidence>, after: seq<MergeEvidence>)
    requires i < |cs| && Appended(rows, Accepted(cs[..i], hubs), before)
    requires after == before || (Admissible(hubs(i))(cs[i]) && Appended(before, [cs[i]], after))
    ensures PrefixRecorded(rows, cs, hubs, after)
    ensures after == before && !Admissible(hubs(i))(cs[i]) ==>
              Accepted(cs[..i + 1], hubs) == Accepted(cs[..i], hubs) && Appended(rows, Accepted(cs[..i + 1], hubs), after)
    ensures after != before ==>
              Accepted(cs[..i + 1], hubs) == Accepted(cs[..i], hubs) + [cs[i]] && Appended(rows, Accepted(cs[..i + 1], hubs), after)
  {
    assert cs[..i + 1] == cs[..i] + [cs[i]];
    InitOfAppend(cs[..i], cs[i]);
    if after == before {
      ShorterIsPrefix(rows, cs, i, hubs, after);
    } else {
      AppendedOneMore(rows, Accepted(cs[..i], hubs), before, cs[i], after);
      ShorterIsPrefix(rows, cs, i + 1, hubs, after);
    }
  }

  /** Runs every heuristic on the batch and collects their candidates in registration order. */
  method GenerateAll(chainId: string, deltas: seq<BalanceDelta>, setting: Option<real>, excluded: set<TxKey>, hubs: HubSet,
                     others: seq<Option<seq<MergeCandidate>>>)
    returns (r: Outcome<seq<MergeCandidate>>)
    ensures r.Ok? ==> DrawnFrom(deltas, setting, excluded, hubs, others, r.value)
  {
    var common := Generate(deltas, setting, excluded, hubs);
    if common.Err? {
      return Err;
    }
    var rest := CollectOthers(others);
    if rest.Err? {
      return Err;
    }
    return Ok(common.value + rest.value);
  }

  method CollectOthers(others: seq<Option<seq<MergeCandidate>>>) returns (r: Outcome<seq<MergeCandidate>>)
    ensures r.Ok? ==> r.value == Generated(others)
  {
    var all: seq<MergeCandidate> := [];
    for i := 0 to |others|
      invariant all == Generated(others[..i])
    {
      if others[i].None? {
        return Err;
      }
      assert others[..i + 1] == others[..i] + [others[i]];
      InitOfAppend(others[..i], others[i]);
      all := all + others[i].value;
    }
    assert others[..|others|] == others;
    return Ok(all);
  }

  class Pipeline {
    const evidence: EvidenceStore
    const cluster: ClusterStore
    const merge: MergeEngine

    constructor (evidence: EvidenceStore, cluster: ClusterStore, merge: MergeEngine)
      requires cluster.evidence == evidence && merge.evidence == evidence
      ensures this.evidence == evidence && this.cluster == cluster && this.merge == merge
    {
      this.evidence, this.cluster, this.merge := evidence, cluster, merge;
    }

    ghost predicate Valid()
      reads this, evidence
    {
      cluster.evidence == evidence && merge.evidence == evidence && evidence.Valid()
    }

    ghost function Snapshot(): State
      reads this, evidence, cluster
    {
      State(evidence.rows, cluster.clusters, cluster.membership)
    }

    /** Records the candidates, and replays the chain if all of that succeeded. */
    method RecordAndRebuild(chainId: string, candidates: seq<MergeCandidate>, hubs: int -> HubSet) returns (ok: bool)
      requires Valid()
      modifies evidence, cluster
      ensures Valid()
      ensures Step(old(Snapshot()), Record(chainId, Accepted(candidates, hubs)), ok, Snapshot())
    {
      var recordedAll, recorded, _ := merge.RecordAndMergeBatch(candidates, hubs);
      if !recordedAll {
        return false;
      }
      var rebuilt := cluster.RebuildFromEvidence(chainId);
      ok := rebuilt.Ok?;
    }

    /** Processes one batch of a chain: ingest and preprocess, generate, record, rebuild. others are
        the candidates of the remaining heuristics, None where one of them fails; hubs are the hubs at
        generation, later(i) those when candidate i is recorded. */
    method Run(chainId: string, deltas: seq<BalanceDelta>, setting: Option<real>, excluded: set<TxKey>, hubs: HubSet,
               others: seq<Option<seq<MergeCandidate>>>, later: int -> HubSet)
      returns (ok: bool, ghost candidates: seq<MergeCandidate>)
      requires Valid()
      modifies evidence, cluster
      ensures Valid()
      ensures deltas == [] ==> ok && Snapshot() == old(Snapshot())
      ensures deltas != [] ==> Step(old(Snapshot()), Record(chainId, Accepted(candidates, later)), ok, Snapshot())
      ensures candidates == [] || DrawnFrom(deltas, setting, excluded, hubs, others, candidates)
      ensures ok && deltas != [] ==> DrawnFrom(deltas, setting, excluded, hubs, others, candidates)
    {
      candidates := [];
      if |deltas| == 0 {
        return true, candidates;
      }
      NothingRecorded(old(Snapshot()), chainId);
      var ingestFails, preprocessFails := *, *;
      if ingestFails || preprocessFails {
        return false, candidates;
      }
      var generated := GenerateAll(chainId, deltas, setting, excluded, hubs, others);
      if generated.Err? {
        return false, candidates;
      }
      candidates := generated.value;
      ok := RecordAndRebuild(chainId, generated.value, later);
    }
  }

  /** The candidates of the other heuristics, in registration order. */
  ghost function Generated(others: seq<Option<seq<MergeCandidate>>>): seq<MergeCandidate> {
    if others == [] then []
    else Generated(Init(others)) + (if Last(others).Some? then Last(others).value else [])
  }

  /** cs are the stars of the batch followed by the candidates of the other heuristics. */
  ghost predicate DrawnFrom(deltas: seq<BalanceDelta>, setting: Option<real>, excluded: set<TxKey>, hubs: HubSet,
                            others: seq<Option<seq<MergeCandidate>>>, cs: seq<MergeCandidate>)
  {
    cs == (if setting.None? then [] else Stars(GroupsOf(deltas), excluded, hubs, setting.value)) + Generated(others)
  }

  lemma NothingRecorded(s: State, chainId: string)
    ensures Step(s, Record(chainId, []), false, s)
  {
    AppendedNothing(s.rows);
    assert s == s.(rows := s.rows);
  }

  lemma GroupDelta(deltas: seq<BalanceDelta>, g: TxGroup)
    requires g in GroupsOf(deltas) && g.deltas != []
    ensures g.deltas[0] in deltas && KeyOf(g.deltas[0]) == g.key
  {
    var i :| 0 <= i < |GroupsOf(deltas)| && GroupsOf(deltas)[i] == g;
    FilterElements(deltas, InTx(g.key));
    assert g.deltas[0] in g.deltas;
  }

  /** Every candidate of the common-input heuristic is on the chain and the block of some delta. */
  lemma StarsAreSourced(deltas: seq<BalanceDelta>, excluded: set<TxKey>, hubs: HubSet, confidence: real, c: MergeCandidate)
    requires c in Stars(GroupsOf(deltas), excluded, hubs, confidence)
    ensures exists d :: d in deltas && d.chainId == c.chainId && c.sourceBlockHash == Some(d.blockHash) && c.sourceTxId == Some(d.txId)
  {
    StarCandidate(GroupsOf(deltas), excluded, hubs, confidence, c);
    var g :| g in GroupsOf(deltas) && g.deltas != [] && c.chainId == g.key.chainId && c.sourceTxId == Some(g.key.txId) &&
      c.sourceBlockHash == Some(g.deltas[0].blockHash);
    GroupDelta(deltas, g);
  }

  /** Every candidate that the common-input heuristic draws from one block is anchored to it. */
  lemma StarsOnBlock(deltas: seq<BalanceDelta>, excluded: set<TxKey>, hubs: HubSet, confidence: real, blockHash: string)
    requires forall d :: d in deltas ==> d.blockHash == blockHash
    ensures forall c :: c in Stars(GroupsOf(deltas), excluded, hubs, confidence) ==> c.sourceBlockHash == Some(blockHash)
  {
    forall c | c in Stars(GroupsOf(deltas), excluded, hubs, confidence)
      ensures c.sourceBlockHash == Some(blockHash)
    {
      StarsAreSourced(deltas, excluded, hubs, confidence, c);
    }
  }
}
