/**
 From the events that reach the consumer to whole blocks: exactly when no block is split between two
 batches, and what the cache then holds in the end.
 */
module WholeBlocks {
  import opened Sequences
  import opened Domain
  import opened EvidenceLog
  import opened Consumer
  import opened Delivery
  import opened Convergence
  import opened BlockLog
  import opened EndToEnd
  import opened CanonicalCache
  import opened Machine = IndexerMachine

  // ---------- groups apart ----------

  /** The first group ends in the block in which the second starts. */
  predicate Meets(g: seq<KafkaMessage>, h: seq<KafkaMessage>) {
    g != [] && h != [] && OfOneBlock(Last(g), h[0])
  }

  predicate MeetsLast(gs: seq<seq<KafkaMessage>>, g: seq<KafkaMessage>) {
    gs != [] && Meets(Last(gs), g)
  }

  /** No block is split between two groups in a row. */
  predicate Apart(gs: seq<seq<KafkaMessage>>) {
    gs == [] || (Apart(Init(gs)) && !MeetsLast(Init(gs), Last(gs)))
  }

  lemma ApartAppend(gs: seq<seq<KafkaMessage>>, g: seq<KafkaMessage>)
    ensures Apart(gs + [g]) <==> Apart(gs) && !MeetsLast(gs, g)
  {
    InitOfAppend(gs, g);
  }

  lemma ApartInit(gs: seq<seq<KafkaMessage>>, g: seq<KafkaMessage>)
    requires Apart(Put(gs, g))
    ensures Apart(gs)
  {
    ApartAppend(gs, g);
  }

  // ---------- which events split a block ----------

  /** A tick or the shutdown came after the last message that could be parsed. */
  predicate FlushedSince(events: seq<Event>, n: nat)
    requires n <= |events|
  {
    n > 0 && (Flushes(events[n - 1]) || (Heard([], events[n - 1]) == [] && FlushedSince(events, n - 1)))
  }

  /** Event i brings a delta of the block of the message before, and a tick came in between. */
  ghost predicate CutsBlock(before: seq<KafkaMessage>, events: seq<Event>, i: nat)
    requires i < |events|
  {
    events[i].Arrive? && Arrived(before, events, i) != [] && OfOneBlock(Last(Arrived(before, events, i)), events[i].m) &&
    FlushedSince(events, i)
  }

  /** None of the first n events splits a block. */
  ghost predicate Uncut(before: seq<KafkaMessage>, events: seq<Event>, n: nat)
    requires n <= |events|
  {
    n == 0 || (Uncut(before, events, n - 1) && !CutsBlock(before, events, n - 1))
  }

  /** Where the last parseable message has gone. */
  ghost predicate Placed(b: Batching, heard: seq<KafkaMessage>, flushed: bool) {
    if b.pending != [] then heard != [] && Last(heard) == Last(b.pending) && IsDelta(Last(heard)) && !flushed
    else if b.groups != [] then
      heard != [] && Last(b.groups) != [] && Last(heard) == Last(Last(b.groups)) && (IsDelta(Last(heard)) ==> flushed)
    else heard == []
  }

  lemma PlacedNext(b: Batching, before: seq<KafkaMessage>, events: seq<Event>, n: nat)
    requires n < |events| && Placed(b, Arrived(before, events, n), FlushedSince(events, n))
    ensures Placed(Fed(b, events[n]), Arrived(before, events, n + 1), FlushedSince(events, n + 1))
  {
  }

  /** No block is split between two groups in a row, that of the pending batch included. */
  predicate Intact(b: Batching) {
    Apart(Flushed(b).groups)
  }

  lemma ApartReorg(b: Batching, m: KafkaMessage)
    requires IsReorg(m)
    ensures Intact(Fed(b, Arrive(m))) <==> Intact(b)
  {
    assert Flushed(Fed(b, Arrive(m))).groups == Flushed(b).groups + [[m]];
    ApartAppend(Flushed(b).groups, [m]);
  }

  lemma ApartBreak(b: Batching, m: KafkaMessage)
    requires IsDelta(m) && Breaks(b.pending, m)
    ensures Intact(Fed(b, Arrive(m))) <==> Intact(b)
  {
    assert Flushed(Fed(b, Arrive(m))).groups == Flushed(b).groups + [[m]];
    ApartAppend(Flushed(b).groups, [m]);
  }

  lemma ApartJoin(b: Batching, m: KafkaMessage)
    requires IsDelta(m) && b.pending != [] && !Breaks(b.pending, m)
    ensures Intact(Fed(b, Arrive(m))) <==> Intact(b)
  {
    ApartAppend(b.groups, b.pending);
    ApartAppend(b.groups, b.pending + [m]);
  }

  lemma ApartStart(b: Batching, m: KafkaMessage)
    requires IsDelta(m) && b.pending == []
    ensures Intact(Fed(b, Arrive(m))) <==> Intact(b) && !MeetsLast(b.groups, [m])
  {
    assert b.pending + [m] == [m] && Flushed(b).groups == b.groups;
    ApartAppend(b.groups, [m]);
  }

  lemma FlushedTwice(b: Batching)
    ensures Flushed(Flushed(b)) == Flushed(b)
  {
  }

  /** One more event splits a block exactly if it is said to. */
  lemma ApartNext(b: Batching, before: seq<KafkaMessage>, events: seq<Event>, n: nat)
    requires n < |events| && Placed(b, Arrived(before, events, n), FlushedSince(events, n))
    ensures Intact(Fed(b, events[n])) <==> Intact(b) && !CutsBlock(before, events, n)
  {
    match events[n]
    case Arrive(m) =>
      if m.body.Some? {
        if IsReorg(m) {
          ApartReorg(b, m);
        } else if b.pending == [] {
          ApartStart(b, m);
        } else if Breaks(b.pending, m) {
          ApartBreak(b, m);
        } else {
          ApartJoin(b, m);
        }
      }
    case _ => FlushedTwice(b);
  }

  lemma {:induction false} AlwaysPlaced(b: Batching, before: seq<KafkaMessage>, events: seq<Event>, n: nat)
    requires n <= |events| && Placed(b, before, false)
    ensures Placed(FedBy(b, events, n), Arrived(before, events, n), FlushedSince(events, n))
  {
    if n > 0 {
      AlwaysPlaced(b, before, events, n - 1);
      PlacedNext(FedBy(b, events, n - 1), before, events, n - 1);
    }
  }

  lemma IntactNext(b: Batching, before: seq<KafkaMessage>, events: seq<Event>, n: nat)
    requires n < |events| && Placed(b, before, false)
    ensures Intact(FedBy(b, events, n + 1)) <==> Intact(FedBy(b, events, n)) && !CutsBlock(before, events, n)
  {
    AlwaysPlaced(b, before, events, n);
    ApartNext(FedBy(b, events, n), before, events, n);
  }

  /** Exactly when the batches keep every block whole: when they did before and no tick comes between two
      deltas of one block. */
  lemma {:induction false} BlocksStayWholeIffUncut(b: Batching, before: seq<KafkaMessage>, events: seq<Event>, n: nat)
    requires n <= |events| && Placed(b, before, false)
    ensures Intact(FedBy(b, events, n)) <==> Intact(b) && Uncut(before, events, n)
  {
    if n > 0 {
      IntactNext(b, before, events, n - 1);
      assert Uncut(before, events, n) <==> Uncut(before, events, n - 1) && !CutsBlock(before, events, n - 1);
      BlocksStayWholeIffUncut(b, before, events, n - 1);
    }
  }

  // ---------- from batches to entries ----------

  lemma {:induction false} DeltasKept(ms: seq<KafkaMessage>)
    ensures forall m :: m in ms && IsDelta(m) ==> m.body.value.delta in DeltasOf(ms)
  {
    if ms != [] {
      DeltasKept(Init(ms));
      assert ms == Init(ms) + [Last(ms)];
    }
  }

  /** All messages are deltas of the block. */
  predicate Brings(ms: seq<KafkaMessage>, chainId: string, hash: string) {
    forall m :: m in ms ==> IsDelta(m) && m.body.value.delta.chainId == chainId && m.body.value.delta.blockHash == hash
  }

  lemma BatchBrings(ms: seq<KafkaMessage>, chainId: string, hash: string)
    requires Carries(DeltasOf(ms), chainId, hash) && forall m :: m in ms ==> IsDelta(m)
    ensures Brings(ms, chainId, hash)
  {
    DeltasKept(ms);
  }

  /** The last entry is what the last group led to. */
  predicate Echoes(es: seq<Entry>, gs: seq<seq<KafkaMessage>>, chainId: string) {
    (es == [] <==> gs == []) &&
    (es != [] && Last(es).Add? ==> Last(gs) != [] && Brings(Last(gs), chainId, Last(es).hash))
  }

  lemma SameBlockMeets(g: seq<KafkaMessage>, h: seq<KafkaMessage>, chainId: string, hash: string)
    requires g != [] && h != [] && Brings(g, chainId, hash) && Brings(h, chainId, hash)
    ensures Meets(g, h)
  {
    assert Last(g) in g && h[0] in h;
  }

  lemma RanStaysWhole(es: seq<Entry>, gs: seq<seq<KafkaMessage>>, ms: seq<KafkaMessage>, e: Entry, chainId: string)
    requires Whole(es, chainId) && Echoes(es, gs, chainId) && ms != [] && Apart(gs + [ms])
    requires e.Add? && e.deltas != [] && Carries(e.deltas, chainId, e.hash) && Brings(ms, chainId, e.hash)
    ensures Whole(es + [e], chainId) && Echoes(es + [e], gs + [ms], chainId)
  {
    ApartAppend(gs, ms);
    if es != [] && Last(es).Add? && Last(es).hash == e.hash {
      SameBlockMeets(Last(gs), ms, chainId, e.hash);
      assert false;
    }
    WholeNext(es, e, chainId);
    AppendedEcho(es, e, gs, ms);
  }

  lemma AppendedEcho(es: seq<Entry>, e: Entry, gs: seq<seq<KafkaMessage>>, ms: seq<KafkaMessage>)
    ensures es + [e] != [] && Last(es + [e]) == e && gs + [ms] != [] && Last(gs + [ms]) == ms
  {
  }

  /** Every message is on the chain. */
  ghost predicate OnTopic(ms: seq<KafkaMessage>, chainId: string) {
    forall m :: m in ms ==> m.body.Some? && ChainOf(m.body.value) == chainId
  }

  lemma RanIsOnTopic(c: string, ms: seq<KafkaMessage>, hash: string, chainId: string)
    requires ms != [] && Brings(ms, c, hash) && OnTopic(ms, chainId)
    ensures c == chainId
  {
    assert ms[0] in ms;
  }

  lemma StepStaysWhole(h: Happening, cs: seq<MergeCandidate>, s: L.State, s': L.State, es: seq<Entry>, gs: seq<seq<KafkaMessage>>,
                       chainId: string)
    requires MeansExactly(h, cs, s, s') && Typed(h) && Whole(es, chainId) && Echoes(es, gs, chainId)
    requires h.ByConsumer? ==> Apart(Put(gs, Disposed(h.effect))) && OnTopic(Disposed(h.effect), chainId)
    ensures Whole(es + Works(h, cs, chainId), chainId)
    ensures Echoes(es + Works(h, cs, chainId), if h.ByConsumer? then Put(gs, Disposed(h.effect)) else gs, chainId)
  {
    assert Works(h, cs, chainId) == [] ==> es + Works(h, cs, chainId) == es;
    match h
    case ByConsumer(Ran(c, ms)) =>
      var e := Add(Last(DeltasOf(ms)).blockHash, DeltasOf(ms), cs);
      BatchBrings(ms, c, e.hash);
      RanIsOnTopic(c, ms, e.hash, chainId);
      RanStaysWhole(es, gs, ms, e, chainId);
    case ByConsumer(Acted(m)) =>
      assert m in [m];
      WholeNext(es, Remove(m.body.value.rolledBack), chainId);
      AppendedEcho(es, Remove(m.body.value.rolledBack), gs, [m]);
    case _ =>
  }

  lemma TopicInit(effects: seq<Effect>, e: Effect, chainId: string)
    requires OnTopic(Trail(effects + [e]), chainId) && Apart(Groups(effects + [e]))
    ensures OnTopic(Trail(effects), chainId) && OnTopic(Disposed(e), chainId)
    ensures Apart(Groups(effects)) && Groups(effects + [e]) == Put(Groups(effects), Disposed(e))
  {
    TrailAppend(effects, e);
    if Disposed(e) != [] {
      ApartAppend(Groups(effects), Disposed(e));
    }
  }

  /** Where no two groups in a row split a block, the ledger works off whole blocks. */
  lemma {:induction false} ApartIsWhole(hs: seq<Happening>, claims: seq<seq<MergeCandidate>>, states: seq<L.State>, chainId: string)
    requires ExactHistory(hs, claims, states) && (forall h :: h in hs ==> Typed(h))
    requires Apart(Groups(EffectsOf(hs))) && OnTopic(Trail(EffectsOf(hs)), chainId)
    ensures Whole(Worked(hs, claims, chainId), chainId)
    ensures Echoes(Worked(hs, claims, chainId), Groups(EffectsOf(hs)), chainId)
  {
    if hs != [] {
      var n := |hs| - 1;
      InitElements(hs);
      if Last(hs).ByConsumer? {
        TopicInit(EffectsOf(Init(hs)), Last(hs).effect, chainId);
      } else {
        assert EffectsOf(hs) == EffectsOf(Init(hs));
      }
      ApartIsWhole(Init(hs), Init(claims), states[..n + 1], chainId);
      assert MeansExactly(hs[n], claims[n], states[n], states[n + 1]);
      StepStaysWhole(hs[n], claims[n], states[n], states[n + 1], Worked(Init(hs), Init(claims), chainId),
                     Groups(EffectsOf(Init(hs))), chainId);
    }
  }

  /** What a consumer that started with nothing has done and heard after the first n events, when nothing
      has failed and nothing is pending: these are the promises of its event loop. */
  ghost predicate Drained(effects: seq<Effect>, events: seq<Event>, n: nat) {
    n <= |events| && Disciplined(effects) && Trail(effects) == Arrived([], events, n) &&
    Batching(Groups(effects), []) == FedBy(Batching([], []), events, n)
  }

  /** A loop that ends with a tick or the shutdown, and without failure, has drained the consumer. */
  method RunDrains(events: seq<Event>) returns (consumer: Consumer, ok: bool, ghost n: nat)
    ensures n <= |events|
    ensures ok && n > 0 && Flushes(events[n - 1]) ==> Drained(consumer.effects, events, n)
  {
    consumer := new Consumer();
    ok, n := consumer.Run(events);
  }

  /** No tick within a block: the ledger works off whole blocks. */
  lemma UncutIsWhole(hs: seq<Happening>, claims: seq<seq<MergeCandidate>>, states: seq<L.State>, chainId: string, events: seq<Event>, n: nat)
    requires ExactHistory(hs, claims, states) && Drained(EffectsOf(hs), events, n)
    requires OnTopic(Arrived([], events, n), chainId) && Uncut([], events, n)
    ensures Whole(Worked(hs, claims, chainId), chainId)
  {
    DisciplinedIsTyped(hs);
    BlocksStayWholeIffUncut(Batching([], []), [], events, n);
    ApartIsWhole(hs, claims, states, chainId);
  }

  lemma {:induction false} BodiesKept(ms: seq<KafkaMessage>)
    ensures forall m :: m in ms && m.body.Some? ==> m.body.value in Bodies(ms)
  {
    if ms != [] {
      BodiesKept(Init(ms));
      assert ms == Init(ms) + [Last(ms)];
    }
  }

  lemma {:induction false} ArrivedParsed(events: seq<Event>, n: nat)
    requires n <= |events|
    ensures forall m :: m in Arrived([], events, n) ==> m.body.Some?
  {
    if n > 0 {
      ArrivedParsed(events, n - 1);
    }
  }

  lemma {:induction false} FlatOfChain(es: seq<Entry>, chainId: string)
    requires Carrying(es, chainId)
    ensures forall m :: m in Flat(es, chainId) ==> ChainOf(m) == chainId
  {
    if es != [] {
      WholeInit(es, chainId);
      FlatOfChain(Init(es), chainId);
      if Last(es).Add? {
        MessagesOnChain(Last(es).deltas, chainId, Last(es).hash);
      }
    }
  }

  /** All that an unbroken run puts on the log is about its own chain. */
  lemma LogIsOfChain(chainId: string, acts: seq<Action>, header: string -> StoredBlock)
    requires Legal(Start(chainId), acts) && Unbroken(acts) && forall a :: a in acts ==> Honest(a, header)
    ensures forall m :: m in After(Start(chainId), acts).log ==> ChainOf(m) == chainId
  {
    var written := Written(Start(chainId), acts);
    WrittenIsLog(chainId, acts);
    LoudIsFlatAlike(written, chainId);
    WrittenIsWhole(chainId, acts, header);
    FlatOfChain(Loud(written), chainId);
  }

  lemma TopicOfLog(events: seq<Event>, n: nat, log: seq<Message>, chainId: string)
    requires n <= |events| && Bodies(Arrived([], events, n)) == log && forall m :: m in log ==> ChainOf(m) == chainId
    ensures OnTopic(Arrived([], events, n), chainId) && Filter(log, ForChain(chainId)) == log
  {
    ArrivedParsed(events, n);
    BodiesKept(Arrived([], events, n));
    FilterAll(log, ForChain(chainId));
  }

  /** The end result for a consumer whose topic is the log of one indexer and whose ticks fall between
      blocks: its active rows are the claims last recorded for the stored blocks, in ascending height, and
      the cache is their replay. */
  lemma DrainedCacheIsReplayOfStoredBlocks(hs: seq<Happening>, claims: seq<seq<MergeCandidate>>, states: seq<L.State>, chainId: string,
                                           events: seq<Event>, n: nat, acts: seq<Action>, header: string -> StoredBlock)
    returns (stored: seq<Entry>, standing: seq<Entry>)
    requires ExactHistory(hs, claims, states) && Drained(EffectsOf(hs), events, n) && Uncut([], events, n)
    requires states[0].rows == [] && L.AgreesOn(states[0], chainId)
    requires Legal(Start(chainId), acts) && Unbroken(acts) && forall a :: a in acts ==> Honest(a, header)
    requires After(Start(chainId), acts).phase.Idle?
    requires Bodies(Arrived([], events, n)) == After(Start(chainId), acts).log
    ensures ByHeight(stored, After(Start(chainId), acts).blocks)
    ensures standing == Standing(Worked(hs, claims, chainId)) && Bare(standing) == Bare(Loud(stored))
    ensures Recorded(ActiveRows(states[|hs|].rows, chainId), ClaimsOf(standing))
    ensures L.AgreesOn(states[|hs|], chainId)
  {
    LogIsOfChain(chainId, acts, header);
    TopicOfLog(events, n, After(Start(chainId), acts).log, chainId);
    UncutIsWhole(hs, claims, states, chainId, events, n);
    ExactIsClean(hs, claims, states);
    DisciplinedIsTyped(hs);
    ProcessedIsTrail(hs);
    stored, standing := CacheIsReplayOfStoredBlocks(hs, claims, states, chainId, acts, header);
  }

  lemma ExactIsClean(hs: seq<Happening>, claims: seq<seq<MergeCandidate>>, states: seq<L.State>)
    requires ExactHistory(hs, claims, states)
    ensures NoRollbackFailed(hs)
  {
    forall h | h in hs
      ensures !(h.ByConsumer? && h.effect.ActFailed?)
    {
      var i :| 0 <= i < |hs| && hs[i] == h;
      assert MeansExactly(hs[i], claims[i], states[i], states[i + 1]);
    }
  }
}
