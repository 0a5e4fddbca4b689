/**
 The consumer: deltas are batched per block, a batch runs before anything that follows it, and an
 offset is committed only after the work it covers. The calls it makes are recorded as effects.
 */
module Consumer {
  import opened Sequences
  import opened Domain
  import opened IndexerMachine

  /** A message with its offset; None where it cannot be parsed. */
  datatype KafkaMessage = KafkaMessage(offset: int, body: Option<Message>)

  datatype Effect =
    | Ran(chainId: string, messages: seq<KafkaMessage>)
    | RunFailed(chainId: string, messages: seq<KafkaMessage>)
    | Acted(message: KafkaMessage)
    | ActFailed(message: KafkaMessage)
    | Skipped(message: KafkaMessage)
    | Committed(offsets: seq<KafkaMessage>)

  predicate IsDelta(m: KafkaMessage) {
    m.body.Some? && m.body.value.DeltaMessage?
  }

  predicate IsReorg(m: KafkaMessage) {
    m.body.Some? && m.body.value.ReorgMessage?
  }

  // ---------- batching ----------

  /** Two deltas of one block of one chain. */
  predicate SameBlock(d: BalanceDelta, e: BalanceDelta) {
    d.chainId == e.chainId && d.blockHash == e.blockHash
  }

  /** Where a batch passes from one block to another. It can do so only after a delta that carries
      no block hash. */
  predicate Seam(deltas: seq<BalanceDelta>, i: int)
    requires 0 < i < |deltas|
  {
    !SameBlock(deltas[i - 1], deltas[i])
  }

  ghost predicate SeamsAreUnhashed(deltas: seq<BalanceDelta>) {
    forall i :: 0 < i < |deltas| && Seam(deltas, i) ==> deltas[i - 1].blockHash == ""
  }

  /** All deltas are of one block. */
  ghost predicate OneBlock(deltas: seq<BalanceDelta>) {
    forall i :: 0 <= i < |deltas| ==> SameBlock(deltas[i], Last(deltas))
  }

  /** The messages carry exactly these deltas. */
  ghost predicate Carry(messages: seq<KafkaMessage>, deltas: seq<BalanceDelta>) {
    |messages| == |deltas| && forall i :: 0 <= i < |deltas| ==> CarriedAt(messages, deltas, i)
  }

  predicate CarriedAt(messages: seq<KafkaMessage>, deltas: seq<BalanceDelta>, i: int)
    requires 0 <= i < |messages| == |deltas|
  {
    messages[i].body == Some(DeltaMessage(deltas[i]))
  }

  lemma CarryAppend(messages: seq<KafkaMessage>, deltas: seq<BalanceDelta>, m: KafkaMessage, d: BalanceDelta)
    requires Carry(messages, deltas) && m.body == Some(DeltaMessage(d))
    ensures Carry(messages + [m], deltas + [d])
  {
    forall i | 0 <= i < |deltas + [d]|
      ensures CarriedAt(messages + [m], deltas + [d], i)
    {
      if i < |deltas| {
        assert CarriedAt(messages, deltas, i);
      }
    }
  }

  lemma CarriedMessages(messages: seq<KafkaMessage>, deltas: seq<BalanceDelta>)
    requires Carry(messages, deltas)
    ensures forall m :: m in messages ==> IsDelta(m) && m.body.value.delta in deltas
  {
    forall m | m in messages
      ensures IsDelta(m) && m.body.value.delta in deltas
    {
      var i :| 0 <= i < |messages| && messages[i] == m;
      assert CarriedAt(messages, deltas, i);
    }
  }

  lemma SeamsAppend(deltas: seq<BalanceDelta>, d: BalanceDelta)
    requires SeamsAreUnhashed(deltas)
    requires deltas != [] && !SameBlock(Last(deltas), d) ==> Last(deltas).blockHash == ""
    ensures SeamsAreUnhashed(deltas + [d])
  {
    forall i | 0 < i < |deltas + [d]| && Seam(deltas + [d], i)
      ensures (deltas + [d])[i - 1].blockHash == ""
    {
      if i < |deltas| {
        assert Seam(deltas, i);
      }
    }
  }

  class Batcher {
    var chainID: string
    var blockHash: string
    var deltas: seq<BalanceDelta>
    var messages: seq<KafkaMessage>

    constructor ()
      ensures Valid() && messages == []
    {
      chainID, blockHash, deltas, messages := "", "", [], [];
    }

    ghost predicate Valid()
      reads this
    {
      Carry(messages, deltas) && SeamsAreUnhashed(deltas) &&
      (blockHash != "" ==> deltas != []) &&
      (deltas != [] ==> chainID == Last(deltas).chainId && blockHash == Last(deltas).blockHash)
    }

    /** Adds a delta. When it starts another block, the pending batch is handed back first, unless
        that batch carries no block hash. */
    method Add(d: BalanceDelta, m: KafkaMessage)
      returns (flushDeltas: seq<BalanceDelta>, flushMessages: seq<KafkaMessage>, flushChainID: string, ready: bool)
      requires Valid() && m.body == Some(DeltaMessage(d))
      modifies this
      ensures Valid() && chainID == d.chainId && blockHash == d.blockHash
      ensures ready <==> old(deltas) != [] && Last(old(deltas)).blockHash != "" && !SameBlock(Last(old(deltas)), d)
      ensures ready ==> flushDeltas == old(deltas) && flushMessages == old(messages) && Batched(flushChainID, flushMessages, flushDeltas)
      ensures ready ==> messages == [m]
      ensures !ready ==> flushDeltas == [] && flushMessages == [] && messages == old(messages) + [m]
    {
      flushDeltas, flushMessages, flushChainID, ready := [], [], "", false;
      if blockHash != "" && (d.blockHash != blockHash || d.chainId != chainID) {
        flushDeltas, flushMessages, flushChainID, ready := deltas, messages, chainID, true;
        deltas, messages := [], [];
      }
      SeamsAppend(deltas, d);
      CarryAppend(messages, deltas, m, d);
      chainID := d.chainId;
      blockHash := d.blockHash;
      deltas := deltas + [d];
      messages := messages + [m];
    }

    /** Drains whatever is pending. */
    method Flush() returns (flushDeltas: seq<BalanceDelta>, flushMessages: seq<KafkaMessage>, flushChainID: string)
      requires Valid()
      modifies this
      ensures Valid() && messages == []
      ensures flushDeltas == old(deltas) && flushMessages == old(messages) && flushChainID == old(chainID)
    {
      flushDeltas, flushMessages, flushChainID := deltas, messages, chainID;
      deltas, messages := [], [];
      blockHash := "";
    }
  }

  // ---------- batches ----------

  /** A batch as it is handed to the pipeline. */
  ghost predicate Batched(chainId: string, ms: seq<KafkaMessage>, deltas: seq<BalanceDelta>) {
    deltas != [] && Carry(ms, deltas) && SeamsAreUnhashed(deltas) && chainId == Last(deltas).chainId
  }

  ghost predicate IsBatch(chainId: string, ms: seq<KafkaMessage>) {
    exists deltas :: Batched(chainId, ms, deltas)
  }

  lemma {:induction false} SameBlockUpwards(deltas: seq<BalanceDelta>, i: nat, j: nat)
    requires i <= j < |deltas|
    requires forall k :: i < k <= j ==> !Seam(deltas, k)
    ensures SameBlock(deltas[i], deltas[j])
    decreases j - i
  {
    if i < j {
      SameBlockUpwards(deltas, i, j - 1);
      assert !Seam(deltas, j);
    }
  }

  /** Exactly when a batch is of one block: when no delta without a block hash is followed in it by
      a delta of another block. */
  lemma BatchIsOneBlockIff(chainId: string, ms: seq<KafkaMessage>, deltas: seq<BalanceDelta>)
    requires Batched(chainId, ms, deltas)
    ensures OneBlock(deltas) <==>
            forall i :: 0 < i < |deltas| && deltas[i - 1].blockHash == "" ==> SameBlock(deltas[i - 1], deltas[i])
  {
    if forall i :: 0 < i < |deltas| && deltas[i - 1].blockHash == "" ==> SameBlock(deltas[i - 1], deltas[i]) {
      forall i | 0 <= i < |deltas|
        ensures SameBlock(deltas[i], Last(deltas))
      {
        assert forall k :: i < k <= |deltas| - 1 ==> !Seam(deltas, k);
        SameBlockUpwards(deltas, i, |deltas| - 1);
      }
    }
    if OneBlock(deltas) {
      forall i | 0 < i < |deltas|
        ensures SameBlock(deltas[i - 1], deltas[i])
      {
        assert SameBlock(deltas[i - 1], Last(deltas)) && SameBlock(deltas[i], Last(deltas));
      }
    }
  }

  /** In a batch, the deltas of any chain but the one it is run for carry no block hash. */
  lemma {:induction false} ForeignDeltasAreUnhashed(chainId: string, ms: seq<KafkaMessage>, deltas: seq<BalanceDelta>, i: nat)
    requires Batched(chainId, ms, deltas) && i < |deltas| && deltas[i].chainId != chainId
    ensures deltas[i].blockHash == ""
    decreases |deltas| - i
  {
    if !Seam(deltas, i + 1) {
      ForeignDeltasAreUnhashed(chainId, ms, deltas, i + 1);
    }
  }

  // ---------- what the effects amount to ----------

  /** The messages that an effect disposes of, one way or the other. */
  function Disposed(e: Effect): seq<KafkaMessage> {
    match e
    case Ran(_, ms) => ms
    case RunFailed(_, ms) => ms
    case Acted(m) => [m]
    case ActFailed(m) => [m]
    case Skipped(_) => []
    case Committed(_) => []
  }

  /** Everything disposed of, in order. */
  ghost function Trail(effects: seq<Effect>): seq<KafkaMessage> {
    if effects == [] then [] else Trail(Init(effects)) + Disposed(Last(effects))
  }

  /** Everything disposed of, group by group: the batches that were run and the notices acted on, each
      with success or without. */
  ghost function Groups(effects: seq<Effect>): seq<seq<KafkaMessage>> {
    if effects == [] then [] else Put(Groups(Init(effects)), Disposed(Last(effects)))
  }

  function Put(groups: seq<seq<KafkaMessage>>, ms: seq<KafkaMessage>): seq<seq<KafkaMessage>> {
    if ms == [] then groups else groups + [ms]
  }

  /** The commit covers exactly what the effect e just completed. */
  ghost predicate Covers(ms: seq<KafkaMessage>, e: Effect) {
    match e
    case Ran(_, done) => ms == done
    case Acted(m) => ms == [m]
    case Skipped(m) => ms == [m]
    case _ => false
  }

  ghost predicate InOrder(effects: seq<Effect>, i: int)
    requires 0 <= i < |effects|
  {
    match effects[i]
    case Ran(chainId, ms) => IsBatch(chainId, ms)
    case RunFailed(chainId, ms) => IsBatch(chainId, ms)
    case Acted(m) => IsReorg(m)
    case ActFailed(m) => IsReorg(m)
    case Skipped(m) => m.body.None?
    case Committed(ms) => i > 0 && Covers(ms, effects[i - 1])
  }

  /** Each effect is of the right kind, and each commit directly follows the success it covers. */
  ghost predicate Disciplined(effects: seq<Effect>) {
    forall i :: 0 <= i < |effects| ==> InOrder(effects, i)
  }

  /** How many of the calls failed. */
  ghost function Failures(effects: seq<Effect>): nat {
    if effects == [] then 0
    else Failures(Init(effects)) + if Last(effects).RunFailed? || Last(effects).ActFailed? then 1 else 0
  }

  /** What a batch leaves behind when it is run and committed. */
  function Completed(chainId: string, ms: seq<KafkaMessage>): seq<Effect> {
    if ms == [] then [] else [Ran(chainId, ms), Committed(ms)]
  }

  lemma TrailAppend(effects: seq<Effect>, e: Effect)
    ensures Trail(effects + [e]) == Trail(effects) + Disposed(e)
    ensures Groups(effects + [e]) == Put(Groups(effects), Disposed(e))
    ensures Failures(effects + [e]) == Failures(effects) + if e.RunFailed? || e.ActFailed? then 1 else 0
  {
    InitOfAppend(effects, e);
  }

  lemma DisciplinedAppend(effects: seq<Effect>, e: Effect)
    requires Disciplined(effects) && InOrder(effects + [e], |effects|)
    ensures Disciplined(effects + [e])
  {
    forall i | 0 <= i < |effects + [e]|
      ensures InOrder(effects + [e], i)
    {
      if i < |effects| {
        assert InOrder(effects, i);
      }
    }
  }

  /** The effect that disposed of a message. */
  lemma {:induction false} DisposedSomewhere(effects: seq<Effect>, m: KafkaMessage)
    requires m in Trail(effects)
    ensures exists j :: 0 <= j < |effects| && m in Disposed(effects[j])
  {
    if m in Disposed(Last(effects)) {
      assert m in Disposed(effects[|effects| - 1]);
    } else {
      DisposedSomewhere(Init(effects), m);
      var j :| 0 <= j < |Init(effects)| && m in Disposed(Init(effects)[j]);
      assert effects[j] == Init(effects)[j];
    }
  }

  lemma {:induction false} DisposedInTrail(effects: seq<Effect>, j: nat, m: KafkaMessage)
    requires j < |effects| && m in Disposed(effects[j])
    ensures m in Trail(effects)
  {
    if j < |effects| - 1 {
      assert Init(effects)[j] == effects[j];
      DisposedInTrail(Init(effects), j, m);
    }
  }

  lemma RepeatKept(s: seq<KafkaMessage>, t: seq<KafkaMessage>)
    requires !Distinct(s)
    ensures !Distinct(s + t)
  {
    var p, q :| 0 <= p < q < |s| && s[p] == s[q];
    assert (s + t)[p] == (s + t)[q];
  }

  lemma {:induction false} DisposedTwice(effects: seq<Effect>, j: nat, k: nat, m: KafkaMessage)
    requires j < k < |effects| && m in Disposed(effects[j]) && m in Disposed(effects[k])
    ensures !Distinct(Trail(effects))
  {
    assert Init(effects)[j] == effects[j];
    if k < |effects| - 1 {
      assert Init(effects)[k] == effects[k];
      DisposedTwice(Init(effects), j, k, m);
      RepeatKept(Trail(Init(effects)), Disposed(Last(effects)));
    } else {
      var before := Trail(Init(effects));
      DisposedInTrail(Init(effects), j, m);
      var p :| 0 <= p < |before| && before[p] == m;
      var q :| 0 <= q < |Disposed(effects[k])| && Disposed(effects[k])[q] == m;
      assert Trail(effects)[p] == Trail(effects)[|before| + q];
    }
  }

  ghost predicate WasRun(effects: seq<Effect>, m: KafkaMessage) {
    exists e :: e in effects && e.Ran? && m in e.messages
  }

  /** Exactly when every delta disposed of has been run: when no run has failed. Taken at the moment
      a rollback is acted on, when nothing is pending, this says that the rollback follows all the
      deltas received before it. */
  lemma DeltasAreRunIffNoneFailed(effects: seq<Effect>)
    requires Disciplined(effects) && Distinct(Trail(effects))
    ensures (forall m :: m in Trail(effects) && IsDelta(m) ==> WasRun(effects, m)) <==>
            (forall e :: e in effects ==> !e.RunFailed?)
  {
    if forall e :: e in effects ==> !e.RunFailed? {
      forall m | m in Trail(effects) && IsDelta(m)
        ensures WasRun(effects, m)
      {
        DisposedSomewhere(effects, m);
        var j :| 0 <= j < |effects| && m in Disposed(effects[j]);
        assert effects[j] in effects && InOrder(effects, j);
      }
    }
    if e :| e in effects && e.RunFailed? {
      FailedWasNotRun(effects, e);
    }
  }

  lemma FailedWasNotRun(effects: seq<Effect>, e: Effect)
    requires Disciplined(effects) && Distinct(Trail(effects))
    requires e in effects && e.RunFailed?
    ensures exists m :: m in Trail(effects) && IsDelta(m) && !WasRun(effects, m)
  {
    var j :| 0 <= j < |effects| && effects[j] == e;
    assert InOrder(effects, j);
    var deltas :| Batched(e.chainId, e.messages, deltas);
    var m := e.messages[0];
    assert CarriedAt(e.messages, deltas, 0);
    DisposedInTrail(effects, j, m);
    if WasRun(effects, m) {
      var f :| f in effects && f.Ran? && m in f.messages;
      var k :| 0 <= k < |effects| && effects[k] == f;
      if j < k {
        DisposedTwice(effects, j, k, m);
      } else {
        DisposedTwice(effects, k, j, m);
      }
    }
  }

  lemma {:induction false} TrailOfPrefix(effects: seq<Effect>, i: nat)
    requires i < |effects|
    ensures Trail(effects[..i]) + Disposed(effects[i]) <= Trail(effects)
  {
    if i == |effects| - 1 {
      assert effects[..i] == Init(effects);
    } else {
      assert Init(effects)[..i] == effects[..i] && Init(effects)[i] == effects[i];
      TrailOfPrefix(Init(effects), i);
    }
  }

  /** Exactly when a rollback follows the runs of all deltas consumed before it: when no run had
      failed by then. The premises on consumed and pending are the consumer's invariant. */
  lemma RollbackFollowsDeltasIff(effects: seq<Effect>, pending: seq<KafkaMessage>, consumed: seq<KafkaMessage>, i: nat)
    returns (k: nat)
    requires Disciplined(effects) && Trail(effects) + pending == consumed && Distinct(consumed)
    requires i < |effects| && effects[i].Acted?
    ensures k < |consumed| && consumed[k] == effects[i].message
    ensures (forall m :: m in consumed[..k] && IsDelta(m) ==> WasRun(effects[..i], m)) <==>
            (forall e :: e in effects[..i] ==> !e.RunFailed?)
  {
    var before := effects[..i];
    k := |Trail(before)|;
    TrailOfPrefix(effects, i);
    assert Trail(before) + [effects[i].message] <= consumed;
    assert consumed[..k] == Trail(before);
    forall j | 0 <= j < i
      ensures InOrder(before, j)
    {
      assert InOrder(effects, j);
    }
    assert forall p, q :: 0 <= p < q < k ==> Trail(before)[p] == consumed[p] && Trail(before)[q] == consumed[q];
    DeltasAreRunIffNoneFailed(before);
  }

  /** Only completed work is ever committed: a committed message was run, acted on, or could not be
      parsed. */
  lemma CommittedWasProcessed(effects: seq<Effect>, e: Effect, m: KafkaMessage)
    requires Disciplined(effects) && e in effects && e.Committed? && m in e.offsets
    ensures WasRun(effects, m) || Acted(m) in effects || m.body.None?
  {
    var i :| 0 <= i < |effects| && effects[i] == e;
    assert InOrder(effects, i) && InOrder(effects, i - 1);
    assert effects[i - 1] in effects;
  }

  // ---------- the consumer ----------

  /** What the event loop may wake up to. */
  datatype Event = Arrive(m: KafkaMessage) | Tick | FetchFails | Shutdown

  /** What has been consumed once the message is dealt with: it counts if it can be parsed. */
  function Kept(before: seq<KafkaMessage>, m: KafkaMessage): seq<KafkaMessage> {
    if m.body.Some? then before + [m] else before
  }

  function Heard(before: seq<KafkaMessage>, e: Event): seq<KafkaMessage> {
    if e.Arrive? then Kept(before, e.m) else before
  }

  /** What has been consumed once the first n events are dealt with. */
  ghost function Arrived(before: seq<KafkaMessage>, events: seq<Event>, n: nat): seq<KafkaMessage>
    requires n <= |events|
  {
    if n == 0 then before else Heard(Arrived(before, events, n - 1), events[n - 1])
  }

  /** The arms that run whatever is pending. */
  predicate Flushes(e: Event) {
    e.Tick? || e.Shutdown?
  }

  /** How many of the first n events are ticks. */
  ghost function Ticks(events: seq<Event>, n: nat): nat
    requires n <= |events|
  {
    if n == 0 then 0 else Ticks(events, n - 1) + TickOf(events[n - 1])
  }

  function TickOf(e: Event): nat {
    if e.Tick? then 1 else 0
  }

  // ---------- batching, as a function of what arrives ----------

  /** The groups disposed of so far, and the batch that is pending. */
  datatype Batching = Batching(groups: seq<seq<KafkaMessage>>, pending: seq<KafkaMessage>)

  function Flushed(b: Batching): Batching {
    Batching(Put(b.groups, b.pending), [])
  }

  /** The messages are deltas of one block. */
  predicate OfOneBlock(m: KafkaMessage, n: KafkaMessage) {
    IsDelta(m) && IsDelta(n) && SameBlock(m.body.value.delta, n.body.value.delta)
  }

  /** The delta m starts another block than that of the pending batch, which is hashed. */
  predicate Breaks(pending: seq<KafkaMessage>, m: KafkaMessage) {
    pending != [] && IsDelta(Last(pending)) && Last(pending).body.value.delta.blockHash != "" && !OfOneBlock(Last(pending), m)
  }

  /** What one event makes of the batching. */
  function Fed(b: Batching, e: Event): Batching {
    match e
    case Tick => Flushed(b)
    case Shutdown => Flushed(b)
    case FetchFails => b
    case Arrive(m) =>
      if m.body.None? then b
      else if IsReorg(m) then Batching(Flushed(b).groups + [[m]], [])
      else if Breaks(b.pending, m) then Batching(b.groups + [b.pending], [m])
      else Batching(b.groups, b.pending + [m])
  }

  /** What the first n events make of it. */
  ghost function FedBy(b: Batching, events: seq<Event>, n: nat): Batching
    requires n <= |events|
  {
    if n == 0 then b else Fed(FedBy(b, events, n - 1), events[n - 1])
  }

  class Consumer {
    const batcher: Batcher
    var effects: seq<Effect>
    ghost var consumed: seq<KafkaMessage>

    constructor ()
      ensures Valid() && effects == [] && consumed == [] && fresh(batcher)
    {
      batcher := new Batcher();
      effects, consumed := [], [];
    }

    /** Conservation: what was disposed of, in order, followed by what is pending, is exactly what
        was consumed. */
    ghost predicate Valid()
      reads this, batcher
    {
      batcher.Valid() && Disciplined(effects) && Trail(effects) + batcher.messages == consumed
    }

    ghost function Batches(): Batching
      reads this, batcher
    {
      Batching(Groups(effects), batcher.messages)
    }

    method Commit(ms: seq<KafkaMessage>) returns (ok: bool)
      requires effects != [] && Covers(ms, Last(effects)) && Disciplined(effects)
      modifies this`effects
      ensures Groups(effects) == Groups(old(effects))
      ensures Disciplined(effects) && Trail(effects) == Trail(old(effects)) && Failures(effects) == Failures(old(effects))
      ensures effects == if ok then old(effects) + [Committed(ms)] else old(effects)
    {
      var commitFails := *;
      if commitFails {
        return false;
      }
      TrailAppend(effects, Committed(ms));
      DisciplinedAppend(effects, Committed(ms));
      effects := effects + [Committed(ms)];
      return true;
    }

    /** Records what a call did. */
    method Note(e: Effect)
      requires Disciplined(effects) && InOrder(effects + [e], |effects|)
      modifies this`effects
      ensures effects == old(effects) + [e] && Disciplined(effects)
      ensures Trail(effects) == Trail(old(effects)) + Disposed(e) && Groups(effects) == Put(Groups(old(effects)), Disposed(e))
      ensures e.RunFailed? || e.ActFailed? || Failures(effects) == Failures(old(effects))
    {
      TrailAppend(effects, e);
      DisciplinedAppend(effects, e);
      effects := effects + [e];
    }

    /** Runs a batch through the pipeline and commits it; a failed run leaves it uncommitted. */
    method RunAndCommit(chainId: string, deltas: seq<BalanceDelta>, messages: seq<KafkaMessage>) returns (ok: bool)
      requires Disciplined(effects) && Carry(messages, deltas)
      requires deltas != [] ==> Batched(chainId, messages, deltas)
      modifies this`effects
      ensures Disciplined(effects) && Trail(effects) == Trail(old(effects)) + messages
      ensures Groups(effects) == Put(Groups(old(effects)), messages)
      ensures old(effects) <= effects
      ensures ok ==> effects == old(effects) + Completed(chainId, messages) && Failures(effects) == Failures(old(effects))
      ensures ok || effects == old(effects) + [RunFailed(chainId, messages)] || effects == old(effects) + [Ran(chainId, messages)]
      ensures Failures(effects) <= Failures(old(effects)) + 1
    {
      if |deltas| == 0 {
        return true;
      }
      assert IsBatch(chainId, messages);
      var runFails := *;
      if runFails {
        Note(RunFailed(chainId, messages));
        return false;
      }
      Note(Ran(chainId, messages));
      ok := Commit(messages);
    }

    /** Runs whatever is pending. It is drained even when the run fails. */
    method FlushBatch() returns (ok: bool)
      requires Valid()
      modifies this`effects, batcher
      ensures Valid() && batcher.messages == [] && old(effects) <= effects && Batches() == Flushed(old(Batches()))
      ensures ok ==> effects == old(effects) + Completed(old(batcher.chainID), old(batcher.messages))
      ensures Failures(effects) <= Failures(old(effects)) + 1
      ensures ok ==> Failures(effects) == Failures(old(effects))
    {
      ghost var trail := Trail(effects);
      var deltas, messages, chainId := batcher.Flush();
      ok := RunAndCommit(chainId, deltas, messages);
      assert Trail(effects) == trail + messages && Trail(effects) + [] == Trail(effects);
    }

    /** Acts on a reorg with nothing pending. */
    method Act(m: KafkaMessage) returns (ok: bool)
      requires Valid() && batcher.messages == [] && IsReorg(m)
      modifies this
      ensures Valid() && old(effects) <= effects && consumed == old(consumed) + [m]
      ensures Batches() == Batching(old(Groups(effects)) + [[m]], [])
      ensures ok ==> effects == old(effects) + [Acted(m), Committed([m])] && Failures(effects) == Failures(old(effects))
    {
      consumed := consumed + [m];
      var actFails := *;
      if actFails {
        Note(ActFailed(m));
        return false;
      }
      Note(Acted(m));
      ok := Commit([m]);
    }

    /** Runs the pending batch and then acts on a reorg; a failed run leaves the reorg unconsumed. */
    method HandleReorg(m: KafkaMessage) returns (ok: bool)
      requires Valid() && IsReorg(m)
      modifies this, batcher
      ensures Valid() && old(effects) <= effects
      ensures consumed == old(consumed) + [m] || (!ok && consumed == old(consumed))
      ensures ok ==> Batches() == Fed(old(Batches()), Arrive(m))
      ensures ok ==> consumed == old(consumed) + [m] && batcher.messages == [] && Failures(effects) == Failures(old(effects))
      ensures ok ==> effects == old(effects) + Completed(old(batcher.chainID), old(batcher.messages)) + [Acted(m), Committed([m])]
    {
      ok := FlushBatch();
      if ok {
        ok := Act(m);
      }
    }

    method HandleDelta(d: BalanceDelta, m: KafkaMessage) returns (ok: bool)
      requires Valid() && m.body == Some(DeltaMessage(d))
      modifies this, batcher
      ensures Valid() && old(effects) <= effects && consumed == old(consumed) + [m]
      ensures Batches() == Fed(old(Batches()), Arrive(m))
      ensures ok ==> Failures(effects) == Failures(old(effects))
      ensures ok ==> effects == old(effects) || effects == old(effects) + Completed(old(batcher.chainID), old(batcher.messages))
      ensures ok ==> batcher.messages == [m] || (effects == old(effects) && batcher.messages == old(batcher.messages) + [m])
    {
      ghost var trail, pending := Trail(effects), batcher.messages;
      assert pending != [] ==> CarriedAt(pending, batcher.deltas, |pending| - 1);
      var flushDeltas, flushMessages, flushChainId, ready := batcher.Add(d, m);
      consumed := consumed + [m];
      ok := true;
      if ready {
        ok := RunAndCommit(flushChainId, flushDeltas, flushMessages);
      } else {
        assert trail + (pending + [m]) == trail + pending + [m];
      }
    }

    /** A message that cannot be parsed is committed and forgotten. */
    method Skip(m: KafkaMessage) returns (ok: bool)
      requires Valid() && m.body.None?
      modifies this`effects
      ensures Valid() && old(effects) <= effects && Groups(effects) == Groups(old(effects))
      ensures ok ==> effects == old(effects) + [Skipped(m), Committed([m])] && Failures(effects) == Failures(old(effects))
    {
      Note(Skipped(m));
      assert Trail(old(effects)) + [] == Trail(old(effects));
      ok := Commit([m]);
    }

    method Handle(m: KafkaMessage) returns (ok: bool)
      requires Valid()
      modifies this, batcher
      ensures Valid() && old(effects) <= effects
      ensures consumed == Kept(old(consumed), m) || (!ok && consumed == old(consumed))
      ensures ok ==> Batches() == Fed(old(Batches()), Arrive(m))
      ensures ok ==> Failures(effects) == Failures(old(effects)) && consumed == Kept(old(consumed), m)
      ensures ok && IsReorg(m) ==>
                batcher.messages == [] &&
                effects == old(effects) + Completed(old(batcher.chainID), old(batcher.messages)) + [Acted(m), Committed([m])]
      ensures ok && m.body.None? ==> effects == old(effects) + [Skipped(m), Committed([m])]
    {
      if m.body.None? {
        ok := Skip(m);
        return;
      }
      match m.body.value
      case ReorgMessage(_, _) => ok := HandleReorg(m);
      case DeltaMessage(d) => ok := HandleDelta(d, m);
    }

    /** One arm of the event loop: a failed tick is logged and forgotten, a shutdown runs what is
        pending. */
    method Select(e: Event) returns (ok: bool, stop: bool, ghost heard: bool)
      requires Valid()
      modifies this, batcher
      ensures Valid() && old(effects) <= effects
      ensures stop <==> e.FetchFails? || e.Shutdown?
      ensures e.Tick? ==> ok
      ensures e.FetchFails? ==> !ok && effects == old(effects) && batcher.messages == old(batcher.messages)
      ensures ok && (e.Tick? || e.Shutdown?) ==> batcher.messages == []
      ensures ok ==> Batches() == Fed(old(Batches()), e)
      ensures ok ==> Failures(effects) <= Failures(old(effects)) + TickOf(e)
      ensures consumed == if heard then Heard(old(consumed), e) else old(consumed)
      ensures ok ==> heard
    {
      match e {
        case Shutdown =>
          ok := FlushBatch();
          stop := true;
        case FetchFails =>
          ok, stop := false, true;
        case Tick =>
          var _ := FlushBatch();
          ok, stop := true, false;
        case Arrive(m) =>
          ok := Handle(m);
          stop := false;
      }
      heard := consumed == Heard(old(consumed), e);
    }

    /** The event loop, over any events: it goes on until an arm fails or the process shuts down.
        The first done events have been dealt with; unless the loop failed, they alone decide what was
        batched with what. */
    method Run(events: seq<Event>) returns (ok: bool, ghost done: nat)
      requires Valid()
      modifies this, batcher
      ensures Valid() && old(effects) <= effects
      ensures done <= |events| && consumed == Arrived(old(consumed), events, done)
      ensures ok && done < |events| ==> done > 0 && events[done - 1].Shutdown?
      ensures ok && done > 0 && Flushes(events[done - 1]) ==> batcher.messages == []
      ensures ok ==> Batches() == FedBy(old(Batches()), events, done)
      ensures ok ==> Failures(effects) <= Failures(old(effects)) + Ticks(events, done)
    {
      ok, done := true, 0;
      ghost var was, failures, batches, start := consumed, Failures(effects), Batches(), effects;
      for i := 0 to |events|
        invariant Valid() && start <= effects
        invariant ok && done == i && consumed == Arrived(was, events, i)
        invariant Failures(effects) <= failures + Ticks(events, i)
        invariant Batches() == FedBy(batches, events, i)
      {
        ghost var heard;
        var stop;
        assert Arrived(was, events, i + 1) == Heard(Arrived(was, events, i), events[i]);
        assert FedBy(batches, events, i + 1) == Fed(FedBy(batches, events, i), events[i]);
        assert Ticks(events, i + 1) == Ticks(events, i) + TickOf(events[i]);
        ok, stop, heard := Select(events[i]);
        done := if heard then i + 1 else i;
        assert consumed == Arrived(was, events, done);
        assert ok ==> Batches() == FedBy(batches, events, done);
        assert ok ==> Failures(effects) <= failures + Ticks(events, done);
        if !ok || stop {
          return;
        }
      }
    }
  }
}
