/**
 The indexer of one chain as a machine whose actions are the external ones: publishing, storing,
 announcing a rollback, deleting, rewinding, and stopping at any point between them. What the node
 answers is left entirely open.
 */
module IndexerMachine {
  import opened Sequences
  import opened Domain

  /** A block as the node reports it. */
  datatype Block = Block(hash: string, parentHash: string)

  datatype StoredBlock = StoredBlock(height: int, parentHash: string)

  /** The block table, keyed by hash. */
  type Blocks = map<string, StoredBlock>

  datatype Message =
    | DeltaMessage(delta: BalanceDelta)
    | ReorgMessage(chainId: string, rolledBack: seq<string>)

  datatype Phase =
    | Idle
    | Published(height: int, block: Block)
    | Found(rolledBack: seq<string>, ancestor: int)
    | Announced(rolledBack: seq<string>, ancestor: int)
    | Deleted(ancestor: int)

  /** The last five fields record history and steer nothing: the hashes published successfully, the
      hashes deleted, those published without any delta, those whose publication was cut off before
      they were stored, and those announced as rolled back but not deleted. */
  datatype State = State(
    chainId: string,
    blocks: Blocks,
    cursor: Option<int>,
    log: seq<Message>,
    phase: Phase,
    acked: set<string>,
    removed: set<string>,
    silent: set<string>,
    stray: set<string>,
    withdrawn: set<string>)

  datatype Action =
    | Publish(height: int, block: Block, deltas: seq<BalanceDelta>)
    | PublishPart(hash: string, deltas: seq<BalanceDelta>)
    | Persist
    | Find(rolledBack: seq<string>, ancestor: int)
    | Announce
    | Delete
    | Rewind
    | Stop

  // ---------- reading the state ----------

  function HashesAt(blocks: Blocks, height: int): set<string> {
    set h | h in blocks && blocks[h].height == height
  }

  /** A new block fits if it extends the stored block below it, or nothing is stored there. */
  predicate Continuous(blocks: Blocks, height: int, parentHash: string) {
    HashesAt(blocks, height - 1) == {} || parentHash in HashesAt(blocks, height - 1)
  }

  ghost predicate Carries(deltas: seq<BalanceDelta>, chainId: string, hash: string) {
    forall d :: d in deltas ==> d.chainId == chainId && d.blockHash == hash
  }

  function Messages(deltas: seq<BalanceDelta>): (ms: seq<Message>)
    ensures |ms| == |deltas| && forall i :: 0 <= i < |ms| ==> ms[i] == DeltaMessage(deltas[i])
  {
    seq(|deltas|, i requires 0 <= i < |deltas| => DeltaMessage(deltas[i]))
  }

  /** rolledBack are stored hashes at the cursor's height and below, one per height. */
  ghost predicate Descends(blocks: Blocks, cursor: int, rolledBack: seq<string>, ancestor: int) {
    ancestor == cursor - |rolledBack| &&
    forall i :: 0 <= i < |rolledBack| ==> rolledBack[i] in HashesAt(blocks, cursor - i)
  }

  function Upto(blocks: Blocks, height: int): Blocks {
    map h | h in blocks && blocks[h].height <= height :: blocks[h]
  }

  function Insert(blocks: Blocks, hash: string, b: StoredBlock): Blocks {
    if hash in blocks then blocks else blocks[hash := b]
  }

  /** The hashes that some reorg message of the log lists. */
  ghost function Listed(log: seq<Message>): set<string> {
    if log == [] then {}
    else Listed(Init(log)) + (if Last(log).ReorgMessage? then Elements(Last(log).rolledBack) else {})
  }

  /** The blocks that a reader of the log believes in: a delta adds its block, a reorg message
      removes the ones it lists. */
  ghost function Fold(log: seq<Message>, chainId: string): set<string> {
    if log == [] then {}
    else
      match Last(log)
      case DeltaMessage(d) => Fold(Init(log), chainId) + (if d.chainId == chainId then {d.blockHash} else {})
      case ReorgMessage(c, hs) => Fold(Init(log), chainId) - (if c == chainId then Elements(hs) else {})
  }

  // ---------- actions ----------

  ghost predicate Enabled(s: State, a: Action) {
    match a
    case Publish(height, block, deltas) =>
      s.phase.Idle? && (s.cursor.Some? ==> height == s.cursor.value + 1) &&
      Continuous(s.blocks, height, block.parentHash) && Carries(deltas, s.chainId, block.hash)
    case PublishPart(hash, deltas) => s.phase.Idle? && Carries(deltas, s.chainId, hash)
    case Persist => s.phase.Published?
    case Find(rolledBack, ancestor) =>
      s.phase.Idle? && s.cursor.Some? && Descends(s.blocks, s.cursor.value, rolledBack, ancestor)
    case Announce => s.phase.Found?
    case Delete => s.phase.Announced?
    case Rewind => s.phase.Deleted?
    case Stop => true
  }

  ghost function Apply(s: State, a: Action): State
    requires Enabled(s, a)
  {
    match a
    case Publish(height, block, deltas) =>
      s.(log := s.log + Messages(deltas), phase := Published(height, block), acked := s.acked + {block.hash},
         silent := if deltas == [] then s.silent + {block.hash} else s.silent,
         withdrawn := if deltas == [] then s.withdrawn else s.withdrawn - {block.hash})
    case PublishPart(hash, deltas) =>
      s.(log := s.log + Messages(deltas), stray := if deltas == [] then s.stray else s.stray + {hash},
         withdrawn := if deltas == [] then s.withdrawn else s.withdrawn - {hash})
    case Persist =>
      s.(blocks := Insert(s.blocks, s.phase.block.hash, StoredBlock(s.phase.height, s.phase.block.parentHash)),
         cursor := Some(s.phase.height), phase := Idle)
    case Find(rolledBack, ancestor) => s.(phase := Found(rolledBack, ancestor))
    case Announce =>
      s.(log := s.log + [ReorgMessage(s.chainId, s.phase.rolledBack)],
         phase := Announced(s.phase.rolledBack, s.phase.ancestor),
         stray := s.stray - Elements(s.phase.rolledBack),
         withdrawn := s.withdrawn + Elements(s.phase.rolledBack))
    case Delete =>
      var kept := Upto(s.blocks, s.phase.ancestor);
      s.(blocks := kept, removed := s.removed + (s.blocks.Keys - kept.Keys),
         withdrawn := s.withdrawn - (s.blocks.Keys - kept.Keys), phase := Deleted(s.phase.ancestor))
    case Rewind => s.(cursor := Some(s.phase.ancestor), phase := Idle)
    case Stop =>
      s.(phase := Idle,
         stray := if s.phase.Published? then s.stray + ({s.phase.block.hash} * Fold(s.log, s.chainId)) else s.stray)
  }

  ghost predicate Legal(s: State, acts: seq<Action>)
    decreases |acts|, 0
  {
    acts == [] || (Legal(s, Init(acts)) && Enabled(After(s, Init(acts)), Last(acts)))
  }

  ghost function After(s: State, acts: seq<Action>): State
    requires Legal(s, acts)
    decreases |acts|, 1
  {
    if acts == [] then s else Apply(After(s, Init(acts)), Last(acts))
  }

  function Start(chainId: string): State {
    State(chainId, map[], None, [], Idle, {}, {}, {}, {}, {})
  }

  // ---------- what every run keeps ----------

  ghost predicate OnePerHeight(blocks: Blocks) {
    forall h, k :: h in blocks && k in blocks && blocks[h].height == blocks[k].height ==> h == k
  }

  ghost predicate BelowCursor(blocks: Blocks, cursor: Option<int>) {
    forall h :: h in blocks ==> cursor.Some? && blocks[h].height <= cursor.value
  }

  ghost predicate PhaseSound(s: State) {
    match s.phase
    case Idle => true
    case Published(height, block) => block.hash in s.acked && (s.cursor.Some? ==> height == s.cursor.value + 1)
    case Found(rolledBack, ancestor) => s.cursor.Some? && Descends(s.blocks, s.cursor.value, rolledBack, ancestor)
    case Announced(rolledBack, ancestor) =>
      s.cursor.Some? && Descends(s.blocks, s.cursor.value, rolledBack, ancestor) && Elements(rolledBack) <= Listed(s.log)
    case Deleted(ancestor) => forall h :: h in s.blocks ==> s.blocks[h].height <= ancestor
  }

  /** Never two blocks at one height, never a block above the cursor; what is stored was published
      first, what was deleted had been listed first. */
  ghost predicate Safe(s: State) {
    OnePerHeight(s.blocks) && BelowCursor(s.blocks, s.cursor) && PhaseSound(s) &&
    s.blocks.Keys <= s.acked && s.removed <= Listed(s.log)
  }

  lemma {:induction false} ListedGrows(log: seq<Message>, more: seq<Message>)
    ensures Listed(log) <= Listed(log + more)
  {
    if more == [] {
      assert log + more == log;
    } else {
      assert Init(log + more) == log + Init(more);
      ListedGrows(log, Init(more));
    }
  }

  /** The list found is exactly what the delete removes, highest block first. */
  lemma RolledBackIsExact(blocks: Blocks, cursor: int, rolledBack: seq<string>, ancestor: int)
    requires OnePerHeight(blocks) && BelowCursor(blocks, Some(cursor))
    requires Descends(blocks, cursor, rolledBack, ancestor)
    ensures Elements(rolledBack) == blocks.Keys - Upto(blocks, ancestor).Keys
    ensures forall i :: 0 <= i < |rolledBack| ==> rolledBack[i] in blocks && blocks[rolledBack[i]].height == cursor - i
  {
    forall h | h in blocks && blocks[h].height > ancestor
      ensures h in Elements(rolledBack)
    {
      var i := cursor - blocks[h].height;
      assert rolledBack[i] in HashesAt(blocks, cursor - i);
    }
    forall i | 0 <= i < |rolledBack|
      ensures rolledBack[i] in blocks && blocks[rolledBack[i]].height == cursor - i
    {
      assert rolledBack[i] in HashesAt(blocks, cursor - i);
    }
  }

  lemma SafeStep(s: State, a: Action)
    requires Safe(s) && Enabled(s, a)
    ensures Safe(Apply(s, a))
  {
    match a
    case Publish(height, block, deltas) => ListedGrows(s.log, Messages(deltas));
    case PublishPart(hash, deltas) => ListedGrows(s.log, Messages(deltas));
    case Persist =>
    case Find(rolledBack, ancestor) =>
    case Announce =>
      InitOfAppend(s.log, ReorgMessage(s.chainId, s.phase.rolledBack));
    case Delete =>
      RolledBackIsExact(s.blocks, s.cursor.value, s.phase.rolledBack, s.phase.ancestor);
    case Rewind =>
    case Stop =>
  }

  /** Safety over every run, wherever it stops. */
  lemma {:induction false} EveryRunIsSafe(s: State, acts: seq<Action>)
    requires Safe(s) && Legal(s, acts)
    ensures Safe(After(s, acts))
  {
    if acts != [] {
      EveryRunIsSafe(s, Init(acts));
      SafeStep(After(s, Init(acts)), Last(acts));
    }
  }

  lemma {:induction false} AckedWasPublished(s: State, acts: seq<Action>, hash: string)
    requires Legal(s, acts) && hash in After(s, acts).acked && hash !in s.acked
    ensures exists i :: 0 <= i < |acts| && acts[i].Publish? && acts[i].block.hash == hash
  {
    if hash in After(s, Init(acts)).acked {
      AckedWasPublished(s, Init(acts), hash);
      var i :| 0 <= i < |Init(acts)| && Init(acts)[i].Publish? && Init(acts)[i].block.hash == hash;
      assert acts[i] == Init(acts)[i];
    } else {
      assert acts[|acts| - 1] == Last(acts);
    }
  }

  /** Ordering across stops: whenever a run reaches the point of storing a block, that block's
      publication succeeded earlier in the run; whenever it has just deleted one, a reorg message
      published earlier lists it. */
  lemma PublishedBeforeStored(chainId: string, acts: seq<Action>, hash: string)
    requires Legal(Start(chainId), acts)
    ensures hash in After(Start(chainId), acts).blocks ==>
              exists i :: 0 <= i < |acts| && acts[i].Publish? && acts[i].block.hash == hash
    ensures hash in After(Start(chainId), acts).removed ==> hash in Listed(After(Start(chainId), acts).log)
  {
    EveryRunIsSafe(Start(chainId), acts);
    if hash in After(Start(chainId), acts).blocks {
      AckedWasPublished(Start(chainId), acts, hash);
    }
  }

  /** Only a delete takes stored blocks away, and only ones that a notice published earlier in the run
      lists. */
  lemma DeletedAfterListed(chainId: string, acts: seq<Action>, j: nat, hash: string)
    requires j < |acts| && Legal(Start(chainId), acts[..j]) && Enabled(After(Start(chainId), acts[..j]), acts[j])
    requires hash in After(Start(chainId), acts[..j]).blocks
    requires hash !in Apply(After(Start(chainId), acts[..j]), acts[j]).blocks
    ensures acts[j].Delete?
    ensures exists i :: 0 <= i < j && Announces(Start(chainId), acts, i, hash)
  {
    var s := After(Start(chainId), acts[..j]);
    assert acts[j].Delete? by {
      match acts[j]
      case Persist =>
      case _ =>
    }
    EveryRunIsSafe(Start(chainId), acts[..j]);
    RolledBackIsExact(s.blocks, s.cursor.value, s.phase.rolledBack, s.phase.ancestor);
    AnnouncedWasListed(Start(chainId), acts, j);
    assert hash in Elements(s.phase.rolledBack);
    assert Announces(Start(chainId), acts, j - 1, hash);
  }

  /** Action i publishes a notice that lists the hash. */
  ghost predicate Announces(s: State, acts: seq<Action>, i: int, hash: string)
    requires 0 <= i < |acts|
  {
    acts[i].Announce? && Legal(s, acts[..i]) && After(s, acts[..i]).phase.Found? && hash in After(s, acts[..i]).phase.rolledBack
  }

  /** In the announced phase the last action was the announcement. */
  lemma AnnouncedWasListed(s: State, acts: seq<Action>, j: nat)
    requires j <= |acts| && Legal(s, acts[..j]) && s.phase.Idle? && After(s, acts[..j]).phase.Announced?
    ensures j > 0 && acts[j - 1].Announce? && Legal(s, acts[..j - 1]) && After(s, acts[..j - 1]).phase.Found?
    ensures After(s, acts[..j - 1]).phase.rolledBack == After(s, acts[..j]).phase.rolledBack
  {
    assert j > 0 ==> Init(acts[..j]) == acts[..j - 1] && Last(acts[..j]) == acts[j - 1];
  }

  // ---------- what a reader of the log believes ----------

  lemma {:induction false} FoldDeltas(log: seq<Message>, deltas: seq<BalanceDelta>, chainId: string, hash: string)
    requires Carries(deltas, chainId, hash)
    ensures Fold(log + Messages(deltas), chainId) == if deltas == [] then Fold(log, chainId) else Fold(log, chainId) + {hash}
  {
    if deltas == [] {
      assert log + Messages(deltas) == log;
    } else {
      InitElements(deltas);
      assert log + Messages(deltas) == log + Messages(Init(deltas)) + [DeltaMessage(Last(deltas))];
      InitOfAppend(log + Messages(Init(deltas)), DeltaMessage(Last(deltas)));
      FoldDeltas(log, Init(deltas), chainId, hash);
    }
  }

  /** The blocks that are stored, or about to be. */
  ghost function Held(s: State): set<string> {
    s.blocks.Keys + (if s.phase.Published? then {s.phase.block.hash} else {})
  }

  /** Believed blocks are held or strays; held blocks are believed unless published empty or
      withdrawn. */
  ghost predicate Believable(s: State) {
    var believed := Fold(s.log, s.chainId);
    s.stray <= believed && believed <= Held(s) + s.stray &&
    Held(s) <= believed + s.silent + s.withdrawn &&
    s.withdrawn !! believed &&
    (s.phase.Announced? ==> Elements(s.phase.rolledBack) !! believed && Elements(s.phase.rolledBack) <= s.withdrawn)
  }

  lemma BelieveAnnounce(s: State)
    requires Safe(s) && Believable(s) && s.phase.Found?
    ensures Believable(Apply(s, Announce))
  {
    InitOfAppend(s.log, ReorgMessage(s.chainId, s.phase.rolledBack));
  }

  lemma BelieveDelete(s: State)
    requires Safe(s) && Believable(s) && s.phase.Announced?
    ensures Believable(Apply(s, Delete))
  {
    RolledBackIsExact(s.blocks, s.cursor.value, s.phase.rolledBack, s.phase.ancestor);
  }

  lemma BelieveStep(s: State, a: Action)
    requires Safe(s) && Believable(s) && Enabled(s, a)
    ensures Believable(Apply(s, a))
  {
    match a
    case Publish(height, block, deltas) => FoldDeltas(s.log, deltas, s.chainId, block.hash);
    case PublishPart(hash, deltas) => FoldDeltas(s.log, deltas, s.chainId, hash);
    case Persist =>
    case Find(rolledBack, ancestor) =>
    case Announce => BelieveAnnounce(s);
    case Delete => BelieveDelete(s);
    case Rewind =>
    case Stop =>
  }

  lemma {:induction false} EveryRunIsBelievable(s: State, acts: seq<Action>)
    requires Safe(s) && Believable(s) && Legal(s, acts)
    ensures Believable(After(s, acts))
  {
    if acts != [] {
      EveryRunIsBelievable(s, Init(acts));
      EveryRunIsSafe(s, Init(acts));
      BelieveStep(After(s, Init(acts)), Last(acts));
    }
  }

  /** Exactly when, in a run that may stop anywhere, every block that the log vouches for is stored:
      when every block whose publication was cut off has been stored or rolled back since. */
  lemma VouchedBlocksStoredIffNoStrays(chainId: string, acts: seq<Action>)
    requires Legal(Start(chainId), acts) && After(Start(chainId), acts).phase.Idle?
    ensures Fold(After(Start(chainId), acts).log, chainId) <= After(Start(chainId), acts).blocks.Keys <==>
            After(Start(chainId), acts).stray <= After(Start(chainId), acts).blocks.Keys
  {
    EveryRunIsBelievable(Start(chainId), acts);
    ChainNeverChanges(Start(chainId), acts);
  }

  lemma {:induction false} ChainNeverChanges(s: State, acts: seq<Action>)
    requires Legal(s, acts)
    ensures After(s, acts).chainId == s.chainId
  {
    if acts != [] {
      ChainNeverChanges(s, Init(acts));
    }
  }

  /** An iteration that fails nowhere. */
  ghost predicate Unbroken(acts: seq<Action>) {
    forall a :: a in acts ==> !a.Stop? && !a.PublishPart?
  }

  lemma {:induction false} UnbrokenHasNoStrays(s: State, acts: seq<Action>)
    requires Legal(s, acts) && Unbroken(acts) && s.stray == {}
    ensures After(s, acts).stray == {}
  {
    if acts != [] {
      InitElements(acts);
      UnbrokenHasNoStrays(s, Init(acts));
    }
  }

  /** In a run without failures, a reader of the log believes in stored blocks only. */
  lemma UnbrokenLogIsStored(chainId: string, acts: seq<Action>)
    requires Legal(Start(chainId), acts) && Unbroken(acts) && After(Start(chainId), acts).phase.Idle?
    ensures Fold(After(Start(chainId), acts).log, chainId) <= After(Start(chainId), acts).blocks.Keys
  {
    UnbrokenHasNoStrays(Start(chainId), acts);
    VouchedBlocksStoredIffNoStrays(chainId, acts);
  }

  /** Nothing is stored, and a block may be published. */
  ghost predicate Fresh(s: State, chainId: string) {
    s.chainId == chainId && s.blocks == map[] && s.cursor == None && s.phase.Idle?
  }

  lemma FirstBlockMayBePublished(s: State, block: Block, d: BalanceDelta)
    requires Fresh(s, d.chainId) && d.blockHash == block.hash
    ensures Enabled(s, Publish(1, block, [d]))
  {
  }

  lemma PublishedThenStopped(s: State, block: Block, d: BalanceDelta)
    requires Fresh(s, d.chainId) && Enabled(s, Publish(1, block, [d]))
    ensures var s' := Apply(Apply(s, Publish(1, block, [d])), Stop); Fresh(s', d.chainId) && s'.log == s.log + Messages([d])
  {
  }

  lemma PublishedThenStored(s: State, block: Block, d: BalanceDelta)
    requires Fresh(s, d.chainId) && Enabled(s, Publish(1, block, [d]))
    ensures var s' := Apply(Apply(s, Publish(1, block, [d])), Persist);
            s'.phase.Idle? && s'.blocks.Keys == {block.hash} && s'.log == s.log + Messages([d])
  {
  }

  /** A run that publishes a block and stops has nothing to show for it but the log. */
  lemma PublishAndStop(block: Block, d: BalanceDelta) returns (acts: seq<Action>)
    requires d.blockHash == block.hash
    ensures Legal(Start(d.chainId), acts) && Fresh(After(Start(d.chainId), acts), d.chainId)
    ensures After(Start(d.chainId), acts).log == [] + Messages([d])
  {
    var p := Publish(1, block, [d]);
    FirstBlockMayBePublished(Start(d.chainId), block, d);
    Extend(Start(d.chainId), [], p);
    PublishedThenStopped(Start(d.chainId), block, d);
    Extend(Start(d.chainId), [] + [p], Stop);
    acts := [] + [p] + [Stop];
  }

  /** Going on with another block at the same height. */
  lemma PublishSibling(s0: State, before: seq<Action>, block: Block, d: BalanceDelta) returns (acts: seq<Action>)
    requires Legal(s0, before) && Fresh(After(s0, before), d.chainId) && d.blockHash == block.hash
    ensures Legal(s0, acts) && After(s0, acts).phase.Idle? && After(s0, acts).blocks.Keys == {block.hash}
    ensures After(s0, acts).log == After(s0, before).log + Messages([d])
  {
    var p, s := Publish(1, block, [d]), After(s0, before);
    FirstBlockMayBePublished(s, block, d);
    Extend(s0, before, p);
    PublishedThenStored(s, block, d);
    Extend(s0, before + [p], Persist);
    acts := before + [p] + [Persist];
  }

  /** A stop between publishing a block and storing it can leave that block in the log for good: the
      node switches, the sibling is published and stored, and no reorg message ever names the
      first. */
  lemma StopLeavesOrphanInLog() returns (acts: seq<Action>)
    ensures Legal(Start("eth"), acts) && After(Start("eth"), acts).phase.Idle?
    ensures "b1" in Fold(After(Start("eth"), acts).log, "eth")
    ensures "b1" !in After(Start("eth"), acts).blocks && "b1" !in Listed(After(Start("eth"), acts).log)
    ensures "b2" in After(Start("eth"), acts).blocks
  {
    var d1 := BalanceDelta("eth", "tx1", 0, "A", Some(-1), 1, "b1");
    var d2 := BalanceDelta("eth", "tx2", 0, "B", Some(-1), 1, "b2");
    var before := PublishAndStop(Block("b1", "b0"), d1);
    acts := PublishSibling(Start("eth"), before, Block("b2", "b0"), d2);
    TwoDeltas(d1, d2);
    assert "b1" != "b2";
  }

  lemma TwoDeltas(d1: BalanceDelta, d2: BalanceDelta)
    requires d1.chainId == d2.chainId
    ensures Fold([] + Messages([d1]) + Messages([d2]), d1.chainId) == {d1.blockHash, d2.blockHash}
    ensures Listed([] + Messages([d1]) + Messages([d2])) == {}
  {
    var log := [] + Messages([d1]) + Messages([d2]);
    assert log == [DeltaMessage(d1), DeltaMessage(d2)];
    assert Init(log) == [DeltaMessage(d1)] && Init(Init(log)) == [];
    FoldDeltas([], [d1], d1.chainId, d1.blockHash);
    FoldDeltas([] + Messages([d1]), [d2], d1.chainId, d2.blockHash);
    assert Listed(Init(log)) == {};
  }

  lemma Extend(s: State, acts: seq<Action>, a: Action)
    requires Legal(s, acts) && Enabled(After(s, acts), a)
    ensures Legal(s, acts + [a]) && After(s, acts + [a]) == Apply(After(s, acts), a)
  {
    InitOfAppend(acts, a);
  }
}
