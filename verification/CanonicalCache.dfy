/**
 What the cache holds in the end: in a history without failures, the replay of the claims of the
 stored blocks, in height order, and of nothing else.
 */
module CanonicalCache {
  import opened Sequences
  import opened Domain
  import opened EvidenceLog
  import opened L = Ledger
  import opened Consumer
  import opened CommonInput
  import opened Pipeline
  import opened Delivery
  import opened Convergence
  import opened BlockLog
  import opened EndToEnd
  import opened Machine = IndexerMachine

  // ---------- what the ledger recorded ----------

  ghost function DeltasOf(ms: seq<KafkaMessage>): seq<BalanceDelta> {
    if ms == [] then []
    else DeltasOf(Init(ms)) + if IsDelta(Last(ms)) then [Last(ms).body.value.delta] else []
  }

  /** What a happening does to the rows of a chain, as a log entry; cs are the claims it recorded. */
  ghost function Works(h: Happening, cs: seq<MergeCandidate>, chainId: string): seq<Entry> {
    match h
    case ByConsumer(Ran(c, ms)) =>
      if c == chainId && DeltasOf(ms) != [] then [Add(Last(DeltasOf(ms)).blockHash, DeltasOf(ms), cs)] else []
    case ByConsumer(Acted(m)) =>
      if IsReorg(m) && m.body.value.chainId == chainId then [Remove(m.body.value.rolledBack)] else []
    case _ => []
  }

  ghost function Worked(hs: seq<Happening>, claims: seq<seq<MergeCandidate>>, chainId: string): seq<Entry>
    requires |claims| == |hs|
  {
    if hs == [] then [] else Worked(Init(hs), Init(claims), chainId) + Works(Last(hs), Last(claims), chainId)
  }

  /** All claims are on the chain and on the block. */
  ghost predicate OnBlock(cs: seq<MergeCandidate>, chainId: string, hash: string) {
    forall c :: c in cs ==> c.chainId == chainId && c.sourceBlockHash == Some(hash)
  }

  /** A successful call: one that records the claims cs, all on the block, for a batch of one block; any
      other by the consumer; or a rebuild by an operator. */
  ghost predicate MeansExactly(h: Happening, cs: seq<MergeCandidate>, s: L.State, s': L.State) {
    match h
    case ByConsumer(Ran(c, ms)) =>
      DeltasOf(ms) != [] && Carries(DeltasOf(ms), c, Last(DeltasOf(ms)).blockHash) &&
      OnBlock(cs, c, Last(DeltasOf(ms)).blockHash) && Step(s, Record(c, cs), true, s')
    case ByConsumer(Acted(m)) => RollsBack(s, m, true, s')
    case ByConsumer(Skipped(_)) => s' == s
    case ByConsumer(Committed(_)) => s' == s
    case ByOperator(Rebuild(c), ok) => ok && s' == Rebuilt(s, c)
    case _ => false
  }

  /** claims[i] is what happening i recorded; it may differ from one batch to the next for any reason. */
  ghost predicate ExactHistory(hs: seq<Happening>, claims: seq<seq<MergeCandidate>>, states: seq<L.State>) {
    |states| == |hs| + 1 && |claims| == |hs| &&
    forall i :: 0 <= i < |hs| ==> MeansExactly(hs[i], claims[i], states[i], states[i + 1])
  }

  /** The claims of the entries, one after the other. */
  ghost function ClaimsOf(es: seq<Entry>): seq<MergeCandidate> {
    if es == [] then [] else ClaimsOf(Init(es)) + if Last(es).Add? then Last(es).claims else []
  }

  /** The claims of each entry are on its block. */
  ghost predicate OneBlockEach(es: seq<Entry>, chainId: string) {
    forall e :: e in es && e.Add? ==> OnBlock(e.claims, chainId, e.hash)
  }

  lemma RecordedAppend(rows: seq<MergeEvidence>, cs: seq<MergeCandidate>, more: seq<MergeEvidence>, ds: seq<MergeCandidate>)
    requires Recorded(rows, cs) && Recorded(more, ds)
    ensures Recorded(rows + more, cs + ds)
  {
    forall i | 0 <= i < |rows + more|
      ensures IsFresh((rows + more)[i], (cs + ds)[i])
    {
      if i < |rows| {
        assert IsFresh(rows[i], cs[i]);
      } else {
        assert IsFresh(more[i - |rows|], ds[i - |rows|]);
      }
    }
  }

  /** The rows of one block are all spared or all struck. */
  lemma BlockSparedOrStruck(rows: seq<MergeEvidence>, cs: seq<MergeCandidate>, chainId: string, hash: string, hashes: seq<string>)
    requires Recorded(rows, cs) && OnBlock(cs, chainId, hash)
    ensures Filter(rows, Spared(chainId, Elements(hashes))) == if hash in hashes then [] else rows
  {
    forall e | e in rows
      ensures Spared(chainId, Elements(hashes))(e) <==> hash !in hashes
    {
      var i :| 0 <= i < |rows| && rows[i] == e;
      assert IsFresh(rows[i], cs[i]) && cs[i] in cs;
    }
    if hash in hashes {
      FilterNone(rows, Spared(chainId, Elements(hashes)));
    } else {
      FilterAll(rows, Spared(chainId, Elements(hashes)));
    }
  }

  lemma RecordedSplit(rows: seq<MergeEvidence>, cs: seq<MergeCandidate>, ds: seq<MergeCandidate>)
    requires Recorded(rows, cs + ds)
    ensures Recorded(rows[..|cs|], cs) && Recorded(rows[|cs|..], ds) && rows == rows[..|cs|] + rows[|cs|..]
  {
    forall i | 0 <= i < |cs|
      ensures IsFresh(rows[..|cs|][i], cs[i])
    {
      assert IsFresh(rows[i], (cs + ds)[i]);
    }
    forall i | 0 <= i < |ds|
      ensures IsFresh(rows[|cs|..][i], ds[i])
    {
      assert IsFresh(rows[|cs| + i], (cs + ds)[|cs| + i]);
    }
  }

  /** Striking the rows of some blocks is removing the entries of those blocks. */
  lemma {:induction false} StrikingRemovesEntries(standing: seq<Entry>, rows: seq<MergeEvidence>, chainId: string, hashes: seq<string>)
    requires OneBlockEach(standing, chainId) && forall e :: e in standing ==> e.Add?
    requires Recorded(rows, ClaimsOf(standing))
    ensures Recorded(Filter(rows, Spared(chainId, Elements(hashes))), ClaimsOf(Filter(standing, Outside(hashes))))
  {
    if standing != [] {
      var e, init := Last(standing), Init(standing);
      assert e in standing && forall f :: f in init ==> f in standing;
      var cs, ds := ClaimsOf(init), e.claims;
      RecordedSplit(rows, cs, ds);
      var head, tail := rows[..|cs|], rows[|cs|..];
      StrikingRemovesEntries(init, head, chainId, hashes);
      FilterAppend(head, tail, Spared(chainId, Elements(hashes)));
      BlockSparedOrStruck(tail, ds, chainId, e.hash, hashes);
      if Outside(hashes)(e) {
        InitOfAppend(Filter(init, Outside(hashes)), e);
        RecordedAppend(Filter(head, Spared(chainId, Elements(hashes))), ClaimsOf(Filter(init, Outside(hashes))), tail, ds);
      }
    }
  }

  // ---------- the ledger as a fold of the log ----------

  lemma FreshRowsActive(rows: seq<MergeEvidence>, cs: seq<MergeCandidate>, chainId: string, hash: string)
    requires Recorded(rows, cs) && OnBlock(cs, chainId, hash)
    ensures ActiveRows(rows, chainId) == rows
    ensures forall other :: other != chainId ==> ActiveRows(rows, other) == []
  {
    forall e | e in rows
      ensures e.status == Active && e.claim.chainId == chainId
    {
      var i :| 0 <= i < |rows| && rows[i] == e;
      assert IsFresh(rows[i], cs[i]) && cs[i] in cs;
    }
    FilterAll(rows, ActiveOn(chainId));
    forall other | other != chainId
      ensures ActiveRows(rows, other) == []
    {
      FilterNone(rows, ActiveOn(other));
    }
  }

  /** Recording a batch of one block appends its claims to the active rows of its chain, and nothing to
      those of any other. */
  lemma RecordingAppends(s: L.State, c: string, cs: seq<MergeCandidate>, hash: string, s': L.State, chainId: string)
    requires Step(s, Record(c, cs), true, s') && OnBlock(cs, c, hash)
    ensures c != chainId ==> ActiveRows(s'.rows, chainId) == ActiveRows(s.rows, chainId)
    ensures c == chainId ==>
              |ActiveRows(s.rows, chainId)| <= |ActiveRows(s'.rows, chainId)| &&
              ActiveRows(s'.rows, chainId) == ActiveRows(s.rows, chainId) + s'.rows[|s.rows|..] && Recorded(s'.rows[|s.rows|..], cs)
  {
    var more := s'.rows[|s.rows|..];
    assert cs[..|s'.rows| - |s.rows|] == cs && s'.rows == s.rows + more;
    FreshRowsActive(more, cs, c, hash);
    FilterAppend(s.rows, more, ActiveOn(chainId));
    assert c != chainId ==> ActiveRows(more, chainId) == [];
    assert ActiveRows(s.rows, chainId) + [] == ActiveRows(s.rows, chainId);
  }

  lemma OtherRollbackKeeps(s: L.State, c: string, hashes: set<string>, chainId: string)
    requires c != chainId
    ensures ActiveRows(RolledBack(s, c, hashes).rows, chainId) == ActiveRows(s.rows, chainId)
  {
    RolledBackRows(s, c, hashes);
    OtherChainUntouched(s.rows, OnBlocks(c, hashes), Reorg, chainId);
  }

  lemma RollbackFilters(s: L.State, hashes: set<string>, chainId: string)
    ensures ActiveRows(RolledBack(s, chainId, hashes).rows, chainId) == Filter(ActiveRows(s.rows, chainId), Spared(chainId, hashes))
  {
    RolledBackRows(s, chainId, hashes);
    RollbackDropsRows(s.rows, chainId, hashes);
  }

  /** The active rows of the chain are those of the entries that stand. */
  ghost predicate Mirrors(s: L.State, es: seq<Entry>, chainId: string) {
    OneBlockEach(Standing(es), chainId) &&
    Recorded(ActiveRows(s.rows, chainId), ClaimsOf(Standing(es)))
  }

  lemma RanMirrors(s: L.State, c: string, ms: seq<KafkaMessage>, cs: seq<MergeCandidate>, s': L.State, es: seq<Entry>, chainId: string)
    requires Mirrors(s, es, chainId)
    requires MeansExactly(ByConsumer(Ran(c, ms)), cs, s, s')
    ensures Mirrors(s', es + Works(ByConsumer(Ran(c, ms)), cs, chainId), chainId)
  {
    var deltas := DeltasOf(ms);
    var hash := Last(deltas).blockHash;
    RecordingAppends(s, c, cs, hash, s', chainId);
    if c == chainId {
      var e := Add(hash, deltas, cs);
      StandingNext(es, e);
      InitOfAppend(Standing(es), e);
      RecordedAppend(ActiveRows(s.rows, chainId), ClaimsOf(Standing(es)), s'.rows[|s.rows|..], cs);
    } else {
      assert es + Works(ByConsumer(Ran(c, ms)), cs, chainId) == es;
    }
  }

  lemma ActedMirrors(s: L.State, m: KafkaMessage, cs: seq<MergeCandidate>, s': L.State, es: seq<Entry>, chainId: string)
    requires Mirrors(s, es, chainId) && RollsBack(s, m, true, s')
    ensures Mirrors(s', es + Works(ByConsumer(Acted(m)), cs, chainId), chainId)
  {
    var c, hashes := m.body.value.chainId, m.body.value.rolledBack;
    if c == chainId {
      StandingNext(es, Remove(hashes));
      StandingAreAdds(es);
      StrikingRemovesEntries(Standing(es), ActiveRows(s.rows, chainId), chainId, hashes);
      RollbackFilters(s, Elements(hashes), chainId);
      FilterElements(Standing(es), Outside(hashes));
    } else {
      assert es + Works(ByConsumer(Acted(m)), cs, chainId) == es;
      OtherRollbackKeeps(s, c, Elements(hashes), chainId);
    }
  }

  lemma RebuildMirrors(s: L.State, c: string, es: seq<Entry>, chainId: string)
    requires Mirrors(s, es, chainId)
    ensures Mirrors(Rebuilt(s, c), es, chainId)
  {
  }

  /** In every history of successful calls, with batches of one block each and no correction by hand, the
      active rows of a chain are exactly the claims of the batches that stand, in the order in which they
      were run. */
  lemma {:induction false} LedgerIsFoldOfBatches(hs: seq<Happening>, claims: seq<seq<MergeCandidate>>, states: seq<L.State>, chainId: string)
    requires ExactHistory(hs, claims, states) && states[0].rows == []
    ensures Mirrors(states[|hs|], Worked(hs, claims, chainId), chainId)
  {
    if hs != [] {
      var n := |hs| - 1;
      LedgerIsFoldOfBatches(Init(hs), Init(claims), states[..n + 1], chainId);
      assert MeansExactly(hs[n], claims[n], states[n], states[n + 1]);
      var es := Worked(Init(hs), Init(claims), chainId);
      assert Works(hs[n], claims[n], chainId) == [] ==> es + Works(hs[n], claims[n], chainId) == es;
      match hs[n]
      case ByConsumer(Ran(c, ms)) => RanMirrors(states[n], c, ms, claims[n], states[n + 1], es, chainId);
      case ByConsumer(Acted(m)) => ActedMirrors(states[n], m, claims[n], states[n + 1], es, chainId);
      case ByOperator(Rebuild(c), _) => RebuildMirrors(states[n], c, es, chainId);
      case _ =>
    }
  }

  // ---------- the messages that the ledger worked off ----------

  lemma {:induction false} BodiesOfDeltas(ms: seq<KafkaMessage>)
    requires forall m :: m in ms ==> IsDelta(m)
    ensures Bodies(ms) == Messages(DeltasOf(ms))
  {
    if ms != [] {
      InitElements(ms);
      BodiesOfDeltas(Init(ms));
    }
  }

  lemma MessagesOnChain(deltas: seq<BalanceDelta>, chainId: string, hash: string)
    requires Carries(deltas, chainId, hash)
    ensures forall m :: m in Messages(deltas) ==> ChainOf(m) == chainId
  {
    forall m | m in Messages(deltas)
      ensures ChainOf(m) == chainId
    {
      var i :| 0 <= i < |deltas| && Messages(deltas)[i] == m;
      assert deltas[i] in deltas;
    }
  }

  lemma MessagesOfChain(deltas: seq<BalanceDelta>, c: string, hash: string, chainId: string)
    requires Carries(deltas, c, hash)
    ensures Filter(Messages(deltas), ForChain(chainId)) == if c == chainId then Messages(deltas) else []
  {
    MessagesOnChain(deltas, c, hash);
    if c == chainId {
      FilterAll(Messages(deltas), ForChain(chainId));
    } else {
      FilterNone(Messages(deltas), ForChain(chainId));
    }
  }

  lemma FlatOne(e: Entry, chainId: string)
    ensures Flat([e], chainId) == if e.Add? then Messages(e.deltas) else [ReorgMessage(chainId, e.hashes)]
  {
    assert [] + [e] == [e];
    FlatNext([], e, chainId);
  }

  lemma RanIsWorked(c: string, ms: seq<KafkaMessage>, cs: seq<MergeCandidate>, chainId: string)
    requires DeltasOf(ms) != [] && Carries(DeltasOf(ms), c, Last(DeltasOf(ms)).blockHash) && forall m :: m in ms ==> IsDelta(m)
    ensures Filter(Bodies(ms), ForChain(chainId)) == Flat(Works(ByConsumer(Ran(c, ms)), cs, chainId), chainId)
  {
    var e := Add(Last(DeltasOf(ms)).blockHash, DeltasOf(ms), cs);
    BodiesOfDeltas(ms);
    MessagesOfChain(DeltasOf(ms), c, e.hash, chainId);
    FlatOne(e, chainId);
  }

  lemma OnlyMessage(m: Message, chainId: string)
    ensures Filter([m], ForChain(chainId)) == if ChainOf(m) == chainId then [m] else []
  {
    if ChainOf(m) == chainId {
      FilterAll([m], ForChain(chainId));
    } else {
      FilterNone([m], ForChain(chainId));
    }
  }

  lemma ActedIsWorked(m: KafkaMessage, cs: seq<MergeCandidate>, chainId: string)
    requires IsReorg(m)
    ensures Filter(Bodies([m]), ForChain(chainId)) == Flat(Works(ByConsumer(Acted(m)), cs, chainId), chainId)
  {
    BodiesOfOne(m);
    OnlyMessage(m.body.value, chainId);
    FlatOne(Remove(m.body.value.rolledBack), chainId);
  }

  lemma BodiesOfOne(m: KafkaMessage)
    requires m.body.Some?
    ensures Bodies([m]) == [m.body.value]
  {
    assert Init([m]) == [];
  }

  lemma ToldIsWorked(h: Happening, cs: seq<MergeCandidate>, s: L.State, s': L.State, chainId: string)
    requires MeansExactly(h, cs, s, s') && Typed(h)
    ensures Filter(Told(h), ForChain(chainId)) == Flat(Works(h, cs, chainId), chainId)
  {
    match h
    case ByConsumer(Ran(c, ms)) => RanIsWorked(c, ms, cs, chainId);
    case ByConsumer(Acted(m)) => ActedIsWorked(m, cs, chainId);
    case _ =>
  }

  lemma {:induction false} FlatAppend(es: seq<Entry>, fs: seq<Entry>, chainId: string)
    ensures Flat(es + fs, chainId) == Flat(es, chainId) + Flat(fs, chainId)
  {
    if fs == [] {
      assert es + fs == es;
    } else {
      var more := if Last(fs).Add? then Messages(Last(fs).deltas) else [ReorgMessage(chainId, Last(fs).hashes)];
      FlatAppend(es, Init(fs), chainId);
      FlatNext(es + Init(fs), Last(fs), chainId);
      SplitAppended(es, fs);
      AppendAssociates(Flat(es, chainId), Flat(Init(fs), chainId), more);
      assert Flat(fs, chainId) == Flat(Init(fs), chainId) + more;
    }
  }

  lemma WorkedNext(es: seq<Entry>, more: seq<Entry>, ms: seq<Message>, told: seq<Message>, chainId: string)
    requires Flat(es, chainId) == Filter(ms, ForChain(chainId)) && Flat(more, chainId) == Filter(told, ForChain(chainId))
    ensures Flat(es + more, chainId) == Filter(ms + told, ForChain(chainId))
  {
    FlatAppend(es, more, chainId);
    FilterAppend(ms, told, ForChain(chainId));
  }

  /** The entries that the ledger worked off are the messages of the chain that it processed. */
  lemma {:induction false} WorkedIsProcessed(hs: seq<Happening>, claims: seq<seq<MergeCandidate>>, states: seq<L.State>, chainId: string)
    requires ExactHistory(hs, claims, states) && forall h :: h in hs ==> Typed(h)
    ensures Flat(Worked(hs, claims, chainId), chainId) == Filter(Processed(hs), ForChain(chainId))
  {
    if hs != [] {
      var n := |hs| - 1;
      InitElements(hs);
      WorkedIsProcessed(Init(hs), Init(claims), states[..n + 1], chainId);
      assert MeansExactly(hs[n], claims[n], states[n], states[n + 1]);
      ToldIsWorked(hs[n], claims[n], states[n], states[n + 1], chainId);
      WorkedNext(Worked(Init(hs), Init(claims), chainId), Works(hs[n], claims[n], chainId),
                 Processed(Init(hs)), Told(hs[n]), chainId);
    }
  }

  // ---------- the cache ----------

  lemma ExactStepAgrees(h: Happening, cs: seq<MergeCandidate>, s: L.State, s': L.State, chainId: string)
    requires MeansExactly(h, cs, s, s') && AgreesOn(s, chainId)
    ensures AgreesOn(s', chainId)
  {
    match h
    case ByConsumer(Ran(c, ms)) => StepKeepsAgreement(s, Record(c, cs), true, s', chainId);
    case ByConsumer(Acted(m)) =>
      StepKeepsAgreement(s, Rollback(m.body.value.chainId, Elements(m.body.value.rolledBack)), true, s', chainId);
    case ByOperator(Rebuild(c), _) => StepKeepsAgreement(s, Rebuild(c), true, s', chainId);
    case _ =>
  }

  lemma {:induction false} ExactHistoryAgrees(hs: seq<Happening>, claims: seq<seq<MergeCandidate>>, states: seq<L.State>, chainId: string)
    requires ExactHistory(hs, claims, states) && AgreesOn(states[0], chainId)
    ensures AgreesOn(states[|hs|], chainId)
  {
    if hs != [] {
      var n := |hs| - 1;
      ExactHistoryAgrees(Init(hs), Init(claims), states[..n + 1], chainId);
      assert MeansExactly(hs[n], claims[n], states[n], states[n + 1]);
      ExactStepAgrees(hs[n], claims[n], states[n], states[n + 1], chainId);
    }
  }

  /** Where no batch boundary cuts a block, the ledger worked off what the indexer wrote. */
  lemma WorkedIsWritten(hs: seq<Happening>, claims: seq<seq<MergeCandidate>>, states: seq<L.State>, chainId: string,
                        acts: seq<Action>, header: string -> StoredBlock)
    requires ExactHistory(hs, claims, states) && (forall h :: h in hs ==> Typed(h)) && Whole(Worked(hs, claims, chainId), chainId)
    requires Legal(Start(chainId), acts) && Unbroken(acts) && forall a :: a in acts ==> Honest(a, header)
    requires Filter(Processed(hs), ForChain(chainId)) == After(Start(chainId), acts).log
    ensures Bare(Worked(hs, claims, chainId)) == Bare(Loud(Written(Start(chainId), acts)))
  {
    var written := Written(Start(chainId), acts);
    WorkedIsProcessed(hs, claims, states, chainId);
    WrittenIsLog(chainId, acts);
    LoudIsFlatAlike(written, chainId);
    WrittenIsWhole(chainId, acts, header);
    GroupingIsUnique(Worked(hs, claims, chainId), Loud(written), chainId);
  }

  /** The end result of both services without failures: once the ledger has worked off the log of an
      indexer run, one batch per block, its active rows of the chain are the claims recorded for the
      stored blocks when they were last adopted, block by block in ascending height, and the cache is
      their replay. stored lists all stored blocks, standing those that carry deltas. */
  lemma CacheIsReplayOfStoredBlocks(hs: seq<Happening>, claims: seq<seq<MergeCandidate>>, states: seq<L.State>, chainId: string,
                                    acts: seq<Action>, header: string -> StoredBlock)
    returns (stored: seq<Entry>, standing: seq<Entry>)
    requires ExactHistory(hs, claims, states) && (forall h :: h in hs ==> Typed(h)) && Whole(Worked(hs, claims, chainId), chainId)
    requires states[0].rows == [] && AgreesOn(states[0], chainId)
    requires Legal(Start(chainId), acts) && Unbroken(acts) && forall a :: a in acts ==> Honest(a, header)
    requires After(Start(chainId), acts).phase.Idle?
    requires Filter(Processed(hs), ForChain(chainId)) == After(Start(chainId), acts).log
    ensures ByHeight(stored, After(Start(chainId), acts).blocks)
    ensures standing == Standing(Worked(hs, claims, chainId)) && Bare(standing) == Bare(Loud(stored))
    ensures Recorded(ActiveRows(states[|hs|].rows, chainId), ClaimsOf(standing))
    ensures AgreesOn(states[|hs|], chainId)
  {
    var written := Written(Start(chainId), acts);
    stored, standing := Standing(written), Standing(Worked(hs, claims, chainId));
    StandingIsStored(chainId, acts, header);
    WorkedIsWritten(hs, claims, states, chainId, acts, header);
    BareStandsAlike(Worked(hs, claims, chainId));
    BareStandsAlike(Loud(written));
    LoudStandsAlike(written);
    LedgerIsFoldOfBatches(hs, claims, states, chainId);
    ExactHistoryAgrees(hs, claims, states, chainId);
  }

  // ---------- what the pipeline records ----------

  /** What the pipeline records for a batch of one block is on that block, whatever the hubs, exclusions
      and settings of the moment, if the other heuristics anchor their candidates. */
  lemma RecordedOnBlock(deltas: seq<BalanceDelta>, chainId: string, hash: string, setting: Option<real>, excluded: set<TxKey>,
                        hubs: HubSet, others: seq<Option<seq<MergeCandidate>>>, cs: seq<MergeCandidate>, later: int -> HubSet)
    requires Carries(deltas, chainId, hash) && DrawnFrom(deltas, setting, excluded, hubs, others, cs)
    requires OnBlock(Generated(others), chainId, hash)
    ensures OnBlock(Accepted(cs, later), chainId, hash)
  {
    AcceptedElements(cs, later);
    forall c | c in Accepted(cs, later)
      ensures c.chainId == chainId && c.sourceBlockHash == Some(hash)
    {
      if c !in Generated(others) {
        StarsAreSourced(deltas, excluded, hubs, setting.value, c);
      }
    }
  }

  lemma {:induction false} DeltasCarried(ms: seq<KafkaMessage>, deltas: seq<BalanceDelta>)
    requires Carry(ms, deltas)
    ensures DeltasOf(ms) == deltas
  {
    if ms != [] {
      assert CarriedAt(ms, deltas, |ms| - 1);
      forall i | 0 <= i < |Init(ms)|
        ensures CarriedAt(Init(ms), Init(deltas), i)
      {
        assert CarriedAt(ms, deltas, i);
      }
      DeltasCarried(Init(ms), Init(deltas));
      assert deltas == Init(deltas) + [Last(deltas)];
    }
  }

  /** A batch of hashed deltas is of one block. */
  lemma HashedBatchIsOneBlock(chainId: string, ms: seq<KafkaMessage>, deltas: seq<BalanceDelta>)
    requires Batched(chainId, ms, deltas) && forall d :: d in deltas ==> d.blockHash != ""
    ensures Carries(deltas, chainId, Last(deltas).blockHash)
  {
    assert forall i :: 0 <= i < |deltas| ==> deltas[i] in deltas;
    BatchIsOneBlockIff(chainId, ms, deltas);
    forall d | d in deltas
      ensures d.chainId == chainId && d.blockHash == Last(deltas).blockHash
    {
      var i :| 0 <= i < |deltas| && deltas[i] == d;
      assert SameBlock(deltas[i], Last(deltas));
    }
  }

  /** What Pipeline.Run promises, when it succeeds on a batch of hashed deltas, is an exact recording. */
  lemma RunMeansExactly(s: L.State, s': L.State, chainId: string, ms: seq<KafkaMessage>, deltas: seq<BalanceDelta>,
                        setting: Option<real>, excluded: set<TxKey>, hubs: HubSet, others: seq<Option<seq<MergeCandidate>>>,
                        cs: seq<MergeCandidate>, later: int -> HubSet)
    requires Batched(chainId, ms, deltas) && forall d :: d in deltas ==> d.blockHash != ""
    requires Step(s, Record(chainId, Accepted(cs, later)), true, s')
    requires DrawnFrom(deltas, setting, excluded, hubs, others, cs)
    requires OnBlock(Generated(others), chainId, Last(deltas).blockHash)
    ensures MeansExactly(ByConsumer(Ran(chainId, ms)), Accepted(cs, later), s, s')
  {
    DeltasCarried(ms, deltas);
    HashedBatchIsOneBlock(chainId, ms, deltas);
    RecordedOnBlock(deltas, chainId, Last(deltas).blockHash, setting, excluded, hubs, others, cs, later);
  }
}
