/**
 Both services together: which blocks the active evidence can come from, for every history of what
 the consumer and an operator do to the ledger.
 */
module EndToEnd {
  import opened Sequences
  import opened Domain
  import opened EvidenceLog
  import opened ClusterTables
  import opened Ledger
  import opened Consumer
  import opened CommonInput
  import opened Pipeline
  import opened Delivery
  import opened Convergence
  import Machine = IndexerMachine

  type Message = Machine.Message

  /** What befalls the ledger: a call by the consumer, or one by an operator. */
  datatype Happening = ByConsumer(effect: Effect) | ByOperator(op: Op, ok: bool)

  /** Each claim is on the chain of a delta of the batch, and on the block of that delta if on any. */
  ghost predicate Sourced(claims: seq<MergeCandidate>, ms: seq<KafkaMessage>) {
    forall c :: c in claims ==> Supplied(ms, c)
  }

  ghost predicate Supplied(ms: seq<KafkaMessage>, c: MergeCandidate) {
    exists m :: m in ms && Supplies(m, c)
  }

  predicate Supplies(m: KafkaMessage, c: MergeCandidate) {
    IsDelta(m) && m.body.value.delta.chainId == c.chainId &&
    (c.sourceBlockHash.Some? ==> c.sourceBlockHash.value == m.body.value.delta.blockHash)
  }

  ghost predicate HasBlock(ms: seq<KafkaMessage>, chainId: string, hash: string) {
    exists m :: m in ms && m.body.Some? && m.body.value.DeltaMessage? && Settles(m.body.value, chainId, hash)
  }

  ghost predicate Records(s: State, chainId: string, ms: seq<KafkaMessage>, ok: bool, s': State) {
    exists claims :: Sourced(claims, ms) && Step(s, Record(chainId, claims), ok, s')
  }

  ghost predicate RollsBack(s: State, m: KafkaMessage, ok: bool, s': State) {
    IsReorg(m) && Step(s, Rollback(m.body.value.chainId, Elements(m.body.value.rolledBack)), ok, s')
  }

  /** What a happening may do to the ledger. */
  ghost predicate Means(h: Happening, s: State, s': State) {
    match h
    case ByConsumer(Ran(chainId, ms)) => Records(s, chainId, ms, true, s')
    case ByConsumer(RunFailed(chainId, ms)) => Records(s, chainId, ms, false, s')
    case ByConsumer(Acted(m)) => RollsBack(s, m, true, s')
    case ByConsumer(ActFailed(m)) => RollsBack(s, m, false, s')
    case ByConsumer(_) => s' == s
    case ByOperator(op, ok) => (op.Correction? || op.Rebuild?) && Step(s, op, ok, s')
  }

  ghost predicate History(hs: seq<Happening>, states: seq<State>) {
    |states| == |hs| + 1 && forall i :: 0 <= i < |hs| ==> Means(hs[i], states[i], states[i + 1])
  }

  /** The claims that the pipeline records for a batch are sourced from it, provided the heuristics
      other than common-input take their candidates from the batch as well. */
  lemma RecordedClaimsAreSourced(ms: seq<KafkaMessage>, deltas: seq<BalanceDelta>, setting: Option<real>, excluded: set<TxKey>,
                                 hubs: HubSet, others: seq<Option<seq<MergeCandidate>>>, cs: seq<MergeCandidate>, later: int -> HubSet)
    requires Carry(ms, deltas) && DrawnFrom(deltas, setting, excluded, hubs, others, cs)
    requires Sourced(Generated(others), ms)
    ensures Sourced(Accepted(cs, later), ms)
  {
    AcceptedElements(cs, later);
    forall c | c in Accepted(cs, later)
      ensures Supplied(ms, c)
    {
      if c !in Generated(others) {
        StarsAreSourced(deltas, excluded, hubs, setting.value, c);
        var d :| d in deltas && d.chainId == c.chainId && c.sourceBlockHash == Some(d.blockHash);
        var i :| 0 <= i < |deltas| && deltas[i] == d;
        assert CarriedAt(ms, deltas, i);
        assert ms[i] in ms && Supplies(ms[i], c);
      }
    }
  }

  /** What Pipeline.Run promises about a batch of the consumer is what the consumer's call means, whether
      it succeeds or fails. */
  lemma RunMeansRecording(s: State, s': State, ok: bool, chainId: string, ms: seq<KafkaMessage>, deltas: seq<BalanceDelta>,
                          setting: Option<real>, excluded: set<TxKey>, hubs: HubSet, others: seq<Option<seq<MergeCandidate>>>,
                          cs: seq<MergeCandidate>, later: int -> HubSet)
    requires Batched(chainId, ms, deltas)
    requires Step(s, Record(chainId, Accepted(cs, later)), ok, s')
    requires cs == [] || DrawnFrom(deltas, setting, excluded, hubs, others, cs)
    requires Sourced(Generated(others), ms)
    ensures Means(ByConsumer(if ok then Ran(chainId, ms) else RunFailed(chainId, ms)), s, s')
  {
    if cs != [] {
      RecordedClaimsAreSourced(ms, deltas, setting, excluded, hubs, others, cs, later);
    }
    assert Sourced(Accepted(cs, later), ms);
  }

  // ---------- where active rows come from ----------

  /** The message bodies, in order. */
  ghost function Bodies(ms: seq<KafkaMessage>): seq<Message> {
    if ms == [] then []
    else Bodies(Init(ms)) + if Last(ms).body.Some? then [Last(ms).body.value] else []
  }

  /** What an effect has told the ledger; a rollback that failed has told it nothing for certain. */
  ghost function Told(h: Happening): seq<Message> {
    match h
    case ByConsumer(Ran(_, ms)) => Bodies(ms)
    case ByConsumer(RunFailed(_, ms)) => Bodies(ms)
    case ByConsumer(Acted(m)) => Bodies([m])
    case _ => []
  }

  ghost function Processed(hs: seq<Happening>): seq<Message> {
    if hs == [] then [] else Processed(Init(hs)) + Told(Last(hs))
  }

  /** Every active row of the chain on a block is on one of these. */
  ghost predicate Supported(rows: seq<MergeEvidence>, chainId: string, blocks: set<string>) {
    forall i :: 0 <= i < |rows| ==> Backed(rows[i], chainId, blocks)
  }

  ghost predicate Backed(e: MergeEvidence, chainId: string, blocks: set<string>) {
    ActiveOn(chainId)(e) && e.claim.sourceBlockHash.Some? ==> e.claim.sourceBlockHash.value in blocks
  }

  /** Invalidation never takes support away. */
  lemma AdvanceKeepsSupport(rows: seq<MergeEvidence>, rows': seq<MergeEvidence>, chainId: string, blocks: set<string>)
    requires Advances(rows, rows') && |rows'| == |rows| && Supported(rows, chainId, blocks)
    ensures Supported(rows', chainId, blocks)
  {
    forall i | 0 <= i < |rows'|
      ensures Backed(rows'[i], chainId, blocks)
    {
      assert Backed(rows[i], chainId, blocks) && MayBecome(rows[i], rows'[i]);
    }
  }

  lemma BodiesNext(ms: seq<KafkaMessage>, log: seq<Message>)
    requires ms != [] && Last(ms).body.Some?
    ensures log + Bodies(ms) == log + Bodies(Init(ms)) + [Last(ms).body.value]
  {
  }

  lemma HasBlockNext(ms: seq<KafkaMessage>, chainId: string, hash: string)
    requires ms != [] && IsDelta(Last(ms))
    ensures HasBlock(ms, chainId, hash) <==> HasBlock(Init(ms), chainId, hash) || Settles(Last(ms).body.value, chainId, hash)
  {
    InitElements(ms);
    SplitLast(ms);
  }

  lemma {:induction false} BatchFold(log: seq<Message>, ms: seq<KafkaMessage>, chainId: string, hash: string)
    requires forall m :: m in ms ==> IsDelta(m)
    ensures hash in Machine.Fold(log + Bodies(ms), chainId) <==> hash in Machine.Fold(log, chainId) || HasBlock(ms, chainId, hash)
  {
    if ms == [] {
      assert log + Bodies(ms) == log;
    } else {
      InitElements(ms);
      BatchFold(log, Init(ms), chainId, hash);
      BodiesNext(ms, log);
      FoldNext(log + Bodies(Init(ms)), Last(ms).body.value, chainId, hash);
      HasBlockNext(ms, chainId, hash);
    }
  }

  lemma RecordKeepsSupport(s: State, chainId: string, ms: seq<KafkaMessage>, ok: bool, s': State, log: seq<Message>, on: string)
    requires Records(s, chainId, ms, ok, s') && (forall m :: m in ms ==> IsDelta(m))
    requires Supported(s.rows, on, Machine.Fold(log, on))
    ensures Supported(s'.rows, on, Machine.Fold(log + Bodies(ms), on))
  {
    var claims: seq<MergeCandidate> :| Sourced(claims, ms) && Step(s, Record(chainId, claims), ok, s');
    forall i | 0 <= i < |s'.rows|
      ensures Backed(s'.rows[i], on, Machine.Fold(log + Bodies(ms), on))
    {
      var source := s'.rows[i].claim.sourceBlockHash;
      if source.Some? {
        BatchFold(log, ms, on, source.value);
      }
      if i < |s.rows| {
        assert Backed(s.rows[i], on, Machine.Fold(log, on)) && s'.rows[i] == s.rows[i];
      } else {
        var more, n := s'.rows[|s.rows|..], i - |s.rows|;
        assert IsFresh(more[n], claims[n]) && claims[n] in claims && Supplied(ms, claims[n]);
      }
    }
  }

  lemma RollbackKeepsSupport(s: State, m: KafkaMessage, s': State, log: seq<Message>, on: string)
    requires RollsBack(s, m, true, s') && Supported(s.rows, on, Machine.Fold(log, on))
    ensures Supported(s'.rows, on, Machine.Fold(log + Bodies([m]), on))
  {
    var chainId, hashes := m.body.value.chainId, Elements(m.body.value.rolledBack);
    assert Bodies([m]) == [m.body.value];
    RolledBackRows(s, chainId, hashes);
    forall i | 0 <= i < |s'.rows|
      ensures Backed(s'.rows[i], on, Machine.Fold(log + Bodies([m]), on))
    {
      assert Backed(s.rows[i], on, Machine.Fold(log, on));
      RollbackReach(s, chainId, hashes, i);
      var source := s.rows[i].claim.sourceBlockHash;
      if source.Some? {
        FoldNext(log, m.body.value, on, source.value);
      }
    }
  }

  /** The batches are of deltas and the notices are reorgs. */
  ghost predicate Typed(h: Happening) {
    match h
    case ByConsumer(Ran(_, ms)) => forall m :: m in ms ==> IsDelta(m)
    case ByConsumer(RunFailed(_, ms)) => forall m :: m in ms ==> IsDelta(m)
    case _ => true
  }

  lemma StepKeepsSupport(h: Happening, s: State, s': State, log: seq<Message>, chainId: string)
    requires Means(h, s, s') && Typed(h)
    requires Supported(s.rows, chainId, Machine.Fold(log, chainId))
    ensures Supported(s'.rows, chainId, Machine.Fold(log + Told(h), chainId))
  {
    match h
    case ByConsumer(Ran(c, ms)) => RecordKeepsSupport(s, c, ms, true, s', log, chainId);
    case ByConsumer(RunFailed(c, ms)) => RecordKeepsSupport(s, c, ms, false, s', log, chainId);
    case ByConsumer(Acted(m)) => RollbackKeepsSupport(s, m, s', log, chainId);
    case ByConsumer(ActFailed(m)) =>
      assert log + Told(h) == log;
      StepAdvances(s, Rollback(m.body.value.chainId, Elements(m.body.value.rolledBack)), false, s');
      AdvanceKeepsSupport(s.rows, s'.rows, chainId, Machine.Fold(log, chainId));
    case ByConsumer(Skipped(_)) =>
      assert log + Told(h) == log;
    case ByConsumer(Committed(_)) =>
      assert log + Told(h) == log;
    case ByOperator(op, ok) =>
      assert log + Told(h) == log;
      StepAdvances(s, op, ok, s');
      AdvanceKeepsSupport(s.rows, s'.rows, chainId, Machine.Fold(log, chainId));
  }

  /** At every point of every history, whatever failed, was retried or was corrected by hand, each
      active row on a block is on a block that folding the processed messages believes in. */
  lemma {:induction false} ActiveRowsAreBelieved(hs: seq<Happening>, states: seq<State>, chainId: string)
    requires History(hs, states) && (forall h :: h in hs ==> Typed(h))
    requires Supported(states[0].rows, chainId, {})
    ensures Supported(states[|hs|].rows, chainId, Machine.Fold(Processed(hs), chainId))
  {
    if hs != [] {
      var n := |hs| - 1;
      InitElements(hs);
      ActiveRowsAreBelieved(Init(hs), states[..n + 1], chainId);
      assert Means(hs[n], states[n], states[n + 1]);
      StepKeepsSupport(hs[n], states[n], states[n + 1], Processed(Init(hs)), chainId);
    }
  }

  // ---------- the consumer's own account ----------

  /** The calls that the consumer made. */
  ghost function EffectsOf(hs: seq<Happening>): seq<Effect> {
    if hs == [] then []
    else EffectsOf(Init(hs)) + if Last(hs).ByConsumer? then [Last(hs).effect] else []
  }

  lemma {:induction false} EffectIsRecorded(hs: seq<Happening>, h: Happening)
    requires h in hs && h.ByConsumer?
    ensures h.effect in EffectsOf(hs)
  {
    if h == Last(hs) {
      assert h.effect == EffectsOf(hs)[|EffectsOf(hs)| - 1];
    } else {
      assert hs == Init(hs) + [Last(hs)];
      EffectIsRecorded(Init(hs), h);
    }
  }

  lemma DisciplinedIsTyped(hs: seq<Happening>)
    requires Disciplined(EffectsOf(hs))
    ensures forall h :: h in hs ==> Typed(h)
  {
    var effects := EffectsOf(hs);
    forall h | h in hs && h.ByConsumer? && (h.effect.Ran? || h.effect.RunFailed?)
      ensures Typed(h)
    {
      EffectIsRecorded(hs, h);
      var i :| 0 <= i < |effects| && effects[i] == h.effect;
      assert InOrder(effects, i);
      var deltas :| Batched(h.effect.chainId, h.effect.messages, deltas);
      CarriedMessages(h.effect.messages, deltas);
    }
  }

  lemma {:induction false} BodiesAppend(ms: seq<KafkaMessage>, more: seq<KafkaMessage>)
    ensures Bodies(ms + more) == Bodies(ms) + Bodies(more)
  {
    if more == [] {
      assert ms + more == ms;
    } else {
      assert Init(ms + more) == ms + Init(more);
      BodiesAppend(ms, Init(more));
    }
  }

  ghost predicate NoRollbackFailed(hs: seq<Happening>) {
    forall h :: h in hs ==> !(h.ByConsumer? && h.effect.ActFailed?)
  }

  /** One more happening, told and disposed of alike. */
  lemma ProcessedNext(effects: seq<Effect>, h: Happening, processed: seq<Message>)
    requires h.ByConsumer? && !h.effect.ActFailed? && processed == Bodies(Trail(effects))
    ensures processed + Told(h) == Bodies(Trail(effects + [h.effect]))
  {
    TrailAppend(effects, h.effect);
    BodiesAppend(Trail(effects), Disposed(h.effect));
    assert Bodies(Disposed(h.effect)) == Told(h);
  }

  lemma {:induction false} ProcessedIsTrail(hs: seq<Happening>)
    requires NoRollbackFailed(hs)
    ensures Processed(hs) == Bodies(Trail(EffectsOf(hs)))
  {
    if hs != [] {
      InitElements(hs);
      ProcessedIsTrail(Init(hs));
      if Last(hs).ByConsumer? {
        ProcessedNext(EffectsOf(Init(hs)), Last(hs), Processed(Init(hs)));
      } else {
        assert EffectsOf(hs) == EffectsOf(Init(hs));
      }
    }
  }

  /** At every consumed prefix: the messages consumed so far, folded, vouch for the block of every
      active row. The premises on consumed and pending are the consumer's invariant. */
  lemma ActiveRowsAreConsumed(hs: seq<Happening>, states: seq<State>, consumed: seq<KafkaMessage>, pending: seq<KafkaMessage>, chainId: string)
    requires History(hs, states) && Supported(states[0].rows, chainId, {})
    requires Disciplined(EffectsOf(hs)) && NoRollbackFailed(hs)
    requires Trail(EffectsOf(hs)) + pending == consumed && (forall m :: m in pending ==> IsDelta(m))
    ensures Supported(states[|hs|].rows, chainId, Machine.Fold(Bodies(consumed), chainId))
  {
    DisciplinedIsTyped(hs);
    ActiveRowsAreBelieved(hs, states, chainId);
    ProcessedIsTrail(hs);
    BodiesAppend(Trail(EffectsOf(hs)), pending);
    var before, now := Machine.Fold(Processed(hs), chainId), Machine.Fold(Bodies(consumed), chainId);
    forall hash | hash in before
      ensures hash in now
    {
      BatchFold(Processed(hs), pending, chainId, hash);
    }
    SupportGrows(states[|hs|].rows, chainId, before, now);
  }

  lemma SupportGrows(rows: seq<MergeEvidence>, chainId: string, blocks: set<string>, more: set<string>)
    requires Supported(rows, chainId, blocks) && blocks <= more
    ensures Supported(rows, chainId, more)
  {
    forall i | 0 <= i < |rows|
      ensures Backed(rows[i], chainId, more)
    {
      assert Backed(rows[i], chainId, blocks);
    }
  }

  // ---------- both services ----------

  /** Once the ledger has processed the whole log of a chain, in order, but with any part of it
      possibly delivered again, every active row on a block is on a block that the indexer stores, or
      on one whose publication was cut off; when nothing was cut off, on a stored block. */
  lemma ActiveRowsAreOnStoredBlocks(hs: seq<Happening>, states: seq<State>, chainId: string, acts: seq<Machine.Action>, offsets: seq<nat>)
    requires History(hs, states) && (forall h :: h in hs ==> Typed(h)) && Supported(states[0].rows, chainId, {})
    requires Machine.Legal(Machine.Start(chainId), acts) && Machine.After(Machine.Start(chainId), acts).phase.Idle?
    requires Delivered(Machine.After(Machine.Start(chainId), acts).log, Filter(Processed(hs), ForChain(chainId)), offsets)
    requires Position(offsets) == |Machine.After(Machine.Start(chainId), acts).log|
    ensures var ix := Machine.After(Machine.Start(chainId), acts);
            Supported(states[|hs|].rows, chainId, ix.blocks.Keys + ix.stray)
    ensures Machine.Unbroken(acts) ==> Supported(states[|hs|].rows, chainId, Machine.After(Machine.Start(chainId), acts).blocks.Keys)
  {
    var ix := Machine.After(Machine.Start(chainId), acts);
    ActiveRowsAreBelieved(hs, states, chainId);
    FoldOfChain(Processed(hs), chainId);
    CaughtUpBelievesTheLog(ix.log, Filter(Processed(hs), ForChain(chainId)), offsets, chainId);
    Machine.EveryRunIsBelievable(Machine.Start(chainId), acts);
    Machine.ChainNeverChanges(Machine.Start(chainId), acts);
    SupportGrows(states[|hs|].rows, chainId, Machine.Fold(ix.log, chainId), ix.blocks.Keys + ix.stray);
    if Machine.Unbroken(acts) {
      Machine.UnbrokenHasNoStrays(Machine.Start(chainId), acts);
      assert ix.blocks.Keys + ix.stray == ix.blocks.Keys;
    }
  }

  /** The row stands on a block of the node's chain, or on no block at all. */
  predicate Stands(e: MergeEvidence, blocks: set<string>) {
    e.claim.sourceBlockHash.Some? ==> e.claim.sourceBlockHash.value in blocks
  }

  function StandsOn(blocks: set<string>): MergeEvidence -> bool {
    (e: MergeEvidence) => Stands(e, blocks)
  }

  ghost function Canonical(canon: seq<Machine.Block>): set<string> {
    set i | 0 <= i < |canon| :: canon[i].hash
  }

  /** Where stored blocks are canonical and the cache agrees, the cache is what replaying the rows on
      canonical blocks alone gives: no orphaned row has any say in it. */
  lemma CacheRestsOnCanonicalBlocks(s: State, chainId: string, blocks: Machine.Blocks, canon: seq<Machine.Block>)
    requires Supported(s.rows, chainId, blocks.Keys) && AllCanonical(canon, blocks) && AgreesOn(s, chainId)
    ensures var rows := Filter(ActiveRows(s.rows, chainId), StandsOn(Canonical(canon)));
            rows == ActiveRows(s.rows, chainId) &&
            PartOf(s.clusters, chainId) == ClusterTableOf(rows) && PartOf(s.membership, chainId) == MembershipTableOf(rows)
  {
    FilterElements(s.rows, ActiveOn(chainId));
    forall e | e in ActiveRows(s.rows, chainId)
      ensures Stands(e, Canonical(canon))
    {
      var i :| 0 <= i < |s.rows| && s.rows[i] == e;
      assert Backed(s.rows[i], chainId, blocks.Keys);
      if e.claim.sourceBlockHash.Some? {
        assert IsCanonical(canon, blocks, e.claim.sourceBlockHash.value);
      }
    }
    FilterAll(ActiveRows(s.rows, chainId), StandsOn(Canonical(canon)));
  }

  // ---------- the cache, and the fate of a row ----------

  predicate Succeeded(h: Happening) {
    match h
    case ByConsumer(e) => !e.RunFailed? && !e.ActFailed?
    case ByOperator(_, ok) => ok
  }

  /** The batch is of one chain, as every batch is whose deltas carry block hashes. */
  ghost predicate OneChain(h: Happening) {
    match h
    case ByConsumer(Ran(chainId, ms)) => forall m :: m in ms && IsDelta(m) ==> m.body.value.delta.chainId == chainId
    case _ => true
  }

  lemma RecordAgrees(s: State, c: string, ms: seq<KafkaMessage>, s': State, chainId: string)
    requires Records(s, c, ms, true, s') && OneChain(ByConsumer(Ran(c, ms))) && AgreesOn(s, chainId)
    ensures AgreesOn(s', chainId)
  {
    var claims: seq<MergeCandidate> :| Sourced(claims, ms) && Step(s, Record(c, claims), true, s');
    forall d | d in claims
      ensures d.chainId == c
    {
      assert Supplied(ms, d);
    }
    StepKeepsAgreement(s, Record(c, claims), true, s', chainId);
  }

  lemma StepAgrees(h: Happening, s: State, s': State, chainId: string)
    requires Means(h, s, s') && Succeeded(h) && OneChain(h) && AgreesOn(s, chainId)
    ensures AgreesOn(s', chainId)
  {
    match h
    case ByConsumer(Ran(c, ms)) => RecordAgrees(s, c, ms, s', chainId);
    case ByConsumer(Acted(m)) =>
      StepKeepsAgreement(s, Rollback(m.body.value.chainId, Elements(m.body.value.rolledBack)), true, s', chainId);
    case ByConsumer(Skipped(_)) =>
    case ByConsumer(Committed(_)) =>
    case ByOperator(op, ok) => StepKeepsAgreement(s, op, ok, s', chainId);
  }

  /** In a history without failures the cache of every chain keeps agreeing with the log. */
  lemma {:induction false} HistoryKeepsAgreement(hs: seq<Happening>, states: seq<State>, chainId: string)
    requires History(hs, states) && (forall h :: h in hs ==> Succeeded(h) && OneChain(h)) && AgreesOn(states[0], chainId)
    ensures AgreesOn(states[|hs|], chainId)
  {
    if hs != [] {
      var n := |hs| - 1;
      InitElements(hs);
      HistoryKeepsAgreement(Init(hs), states[..n + 1], chainId);
      assert Means(hs[n], states[n], states[n + 1]);
      StepAgrees(hs[n], states[n], states[n + 1], chainId);
    }
  }

  /** The happening strikes the row. */
  predicate Strikes(h: Happening, e: MergeEvidence) {
    match h
    case ByConsumer(Acted(m)) =>
      IsReorg(m) && e.claim.chainId == m.body.value.chainId && e.claim.sourceBlockHash.Some? &&
      e.claim.sourceBlockHash.value in m.body.value.rolledBack
    case ByOperator(Correction(chainId, opId), _) => e.claim.chainId == chainId && e.opId == opId
    case _ => false
  }

  lemma StepStrikes(h: Happening, s: State, s': State, i: nat)
    requires Means(h, s, s') && Succeeded(h) && i < |s.rows|
    ensures |s.rows| <= |s'.rows| && s'.rows[i].claim == s.rows[i].claim && s'.rows[i].opId == s.rows[i].opId
    ensures s'.rows[i].status == Active <==> s.rows[i].status == Active && !Strikes(h, s.rows[i])
  {
    match h
    case ByConsumer(Ran(c, ms)) =>
      var claims: seq<MergeCandidate> :| Sourced(claims, ms) && Step(s, Record(c, claims), true, s');
      assert s'.rows[i] == s.rows[i];
    case ByConsumer(Acted(m)) =>
      RolledBackRows(s, m.body.value.chainId, Elements(m.body.value.rolledBack));
    case ByConsumer(Skipped(_)) =>
    case ByConsumer(Committed(_)) =>
    case ByOperator(op, ok) =>
      if op.Correction? && Doomed(s.rows, WithOps(op.chainId, {op.opId})) == {} {
        NothingDoomed(s.rows, WithOps(op.chainId, {op.opId}), ManualCorrection);
      }
  }

  /** Exactly when a row survives a history without failures: when no rollback listed its block and
      no correction named it. */
  lemma {:induction false} RowSurvivesIffNeverStruck(hs: seq<Happening>, states: seq<State>, i: nat)
    requires History(hs, states) && (forall h :: h in hs ==> Succeeded(h))
    requires i < |states[0].rows| && states[0].rows[i].status == Active
    ensures i < |states[|hs|].rows| && states[|hs|].rows[i].claim == states[0].rows[i].claim
    ensures states[|hs|].rows[i].opId == states[0].rows[i].opId
    ensures states[|hs|].rows[i].status == Active <==> forall h :: h in hs ==> !Strikes(h, states[0].rows[i])
  {
    if hs != [] {
      var n := |hs| - 1;
      assert hs == Init(hs) + [Last(hs)];
      InitElements(hs);
      RowSurvivesIffNeverStruck(Init(hs), states[..n + 1], i);
      assert Means(hs[n], states[n], states[n + 1]);
      StepStrikes(hs[n], states[n], states[n + 1], i);
    }
  }
}
