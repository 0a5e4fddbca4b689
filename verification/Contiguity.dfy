/**
 Whether stored blocks stay contiguous and hash-linked, over any node answers whose hashes commit to
 height and parent: every action keeps it but one.
 */
module Contiguity {
  import opened Sequences
  import opened Domain
  import opened IndexerMachine
  import opened Indexer
  import opened Convergence

  /** Published blocks are numbered from zero. */
  predicate Numbered(a: Action) {
    a.Publish? ==> 0 <= a.height
  }

  /** Storage is contiguous up to the cursor; between a delete and the rewind, up to the ancestor. */
  ghost predicate Gapless(s: State, header: string -> StoredBlock) {
    Commits(s.blocks, header) &&
    match s.phase
    case Deleted(ancestor) => s.cursor.Some? && ancestor <= s.cursor.value && Contiguous(s.blocks, ancestor)
    case Published(height, block) =>
      (s.cursor.Some? ==> Contiguous(s.blocks, s.cursor.value)) && 0 <= height &&
      Continuous(s.blocks, height, block.parentHash) && header(block.hash) == StoredBlock(height, block.parentHash)
    case _ => s.cursor.Some? ==> Contiguous(s.blocks, s.cursor.value)
  }

  /** The one stop that tears a hole: blocks were deleted, others remain, and the cursor was not yet
      brought back to them. */
  ghost predicate TearsHole(s: State, a: Action) {
    a.Stop? && s.phase.Deleted? && s.blocks != map[] && s.cursor.Some? && s.phase.ancestor < s.cursor.value
  }

  lemma PersistKeeps(s: State, header: string -> StoredBlock)
    requires Safe(s) && s.phase.Published? && Gapless(s, header)
    ensures Gapless(Apply(s, Persist), header)
  {
    var height, block := s.phase.height, s.phase.block;
    assert block.hash !in s.blocks;
    if s.cursor.None? {
      assert s.blocks == map[];
    }
    InsertKeepsContiguous(s.blocks, height, block.hash, block.parentHash);
  }

  /** Every action keeps storage contiguous, except a stop that tears a hole, which never does. */
  lemma ContiguousUnlessTorn(s: State, a: Action, header: string -> StoredBlock)
    requires Safe(s) && Enabled(s, a) && Honest(a, header) && Numbered(a) && Gapless(s, header)
    ensures Gapless(Apply(s, a), header) <==> !TearsHole(s, a)
  {
    match a
    case Publish(height, block, deltas) =>
    case PublishPart(hash, deltas) =>
    case Persist => PersistKeeps(s, header);
    case Find(rolledBack, ancestor) =>
    case Announce =>
    case Delete => CutKeepsContiguous(s.blocks, s.cursor.value, s.phase.ancestor);
    case Rewind =>
    case Stop =>
      if TearsHole(s, a) {
        var h :| h in s.blocks;
        assert HashesAt(s.blocks, s.cursor.value) == {};
      } else if s.phase.Deleted? && s.blocks != map[] {
        assert s.phase.ancestor == s.cursor.value;
      }
  }

  /** Over every run that never tears a hole, wherever else it stops, storage is contiguous. */
  lemma {:induction false} RunStaysContiguous(chainId: string, acts: seq<Action>, header: string -> StoredBlock)
    requires Legal(Start(chainId), acts)
    requires forall i {:trigger acts[i]} :: 0 <= i < |acts| ==> Honest(acts[i], header) && Numbered(acts[i])
    requires forall n :: 0 <= n < |acts| && Legal(Start(chainId), acts[..n]) ==> !TearsHole(After(Start(chainId), acts[..n]), acts[n])
    ensures Gapless(After(Start(chainId), acts), header)
  {
    if acts != [] {
      var n := |acts| - 1;
      assert Init(acts) == acts[..n];
      forall m | 0 <= m < n && Legal(Start(chainId), Init(acts)[..m])
        ensures !TearsHole(After(Start(chainId), Init(acts)[..m]), Init(acts)[m])
      {
        assert Init(acts)[..m] == acts[..m];
      }
      RunStaysContiguous(chainId, Init(acts), header);
      EveryRunIsSafe(Start(chainId), Init(acts));
      ContiguousUnlessTorn(After(Start(chainId), Init(acts)), Last(acts), header);
    }
  }

  /** At rest such storage is what FollowFixedChain starts from. */
  lemma RestIsTidy(chainId: string, acts: seq<Action>, header: string -> StoredBlock)
    requires Legal(Start(chainId), acts) && After(Start(chainId), acts).phase.Idle?
    requires After(Start(chainId), acts).cursor.Some? && Gapless(After(Start(chainId), acts), header)
    ensures Tidy(After(Start(chainId), acts).blocks, After(Start(chainId), acts).cursor.value, header)
  {
    EveryRunIsSafe(Start(chainId), acts);
  }

  // ---------- a torn hole ----------

  function TwoBlocks(): string -> StoredBlock {
    (h: string) => if h == "b1" then StoredBlock(1, "b0") else StoredBlock(2, "b1")
  }

  /** Two blocks are stored and the second is rolled back up to its deletion. */
  lemma DeleteSecondBlock() returns (acts: seq<Action>)
    ensures Legal(Start("eth"), acts)
    ensures After(Start("eth"), acts).blocks == map["b1" := StoredBlock(1, "b0")]
    ensures After(Start("eth"), acts).cursor == Some(2) && After(Start("eth"), acts).phase == Deleted(1)
    ensures forall a :: a in acts ==> Honest(a, TwoBlocks()) && Numbered(a)
  {
    var s0 := Start("eth");
    var p1, p2 := Publish(1, Block("b1", "b0"), []), Publish(2, Block("b2", "b1"), []);
    Extend(s0, [], p1);
    Extend(s0, [p1], Persist);
    assert [p1] + [Persist] == [p1, Persist];
    assert "b1" in HashesAt(After(s0, [p1, Persist]).blocks, 1);
    Extend(s0, [p1, Persist], p2);
    assert [p1, Persist] + [p2] == [p1, Persist, p2];
    Extend(s0, [p1, Persist, p2], Persist);
    var stored := [p1, Persist, p2, Persist];
    assert [p1, Persist, p2] + [Persist] == stored;
    acts := RollBackSecond(stored);
  }

  lemma RollBackSecond(stored: seq<Action>) returns (acts: seq<Action>)
    requires Legal(Start("eth"), stored) && After(Start("eth"), stored).phase.Idle?
    requires After(Start("eth"), stored).blocks == map["b1" := StoredBlock(1, "b0"), "b2" := StoredBlock(2, "b1")]
    requires After(Start("eth"), stored).cursor == Some(2)
    requires forall a :: a in stored ==> Honest(a, TwoBlocks()) && Numbered(a)
    ensures Legal(Start("eth"), acts)
    ensures After(Start("eth"), acts).blocks == map["b1" := StoredBlock(1, "b0")]
    ensures After(Start("eth"), acts).cursor == Some(2) && After(Start("eth"), acts).phase == Deleted(1)
    ensures forall a :: a in acts ==> Honest(a, TwoBlocks()) && Numbered(a)
  {
    var s0, find := Start("eth"), Find(["b2"], 1);
    assert "b2" in HashesAt(After(s0, stored).blocks, 2);
    Extend(s0, stored, find);
    Extend(s0, stored + [find], Announce);
    Extend(s0, stored + [find] + [Announce], Delete);
    acts := stored + [find] + [Announce] + [Delete];
  }

  /** A hole is reached: stopping after the delete and before the rewind leaves the cursor above the
      last stored block. */
  lemma StopTearsHole() returns (acts: seq<Action>)
    ensures Legal(Start("eth"), acts) && (forall a :: a in acts ==> Honest(a, TwoBlocks()) && Numbered(a))
    ensures After(Start("eth"), acts).phase.Idle? && After(Start("eth"), acts).cursor == Some(2)
    ensures After(Start("eth"), acts).blocks != map[] && HashesAt(After(Start("eth"), acts).blocks, 2) == {}
    ensures !Contiguous(After(Start("eth"), acts).blocks, 2)
  {
    var before := DeleteSecondBlock();
    Extend(Start("eth"), before, Stop);
    acts := before + [Stop];
    assert "b1" in After(Start("eth"), acts).blocks && HashesAt(After(Start("eth"), acts).blocks, 2) == {};
  }

  /** Storage is as before, and holds the node's blocks at the heights above c0 up to c. */
  ghost predicate Grown(before: Blocks, canon: seq<Block>, c0: int, c: int, blocks: Blocks)
    requires -1 <= c0 && c < |canon|
  {
    (forall h :: h in blocks <==> h in before || OnStretch(canon, c0, c, h)) &&
    (forall h :: h in before ==> blocks[h] == before[h]) &&
    (forall n :: c0 < n <= c ==> canon[n].hash in blocks && blocks[canon[n].hash] == StoredBlock(n, canon[n].parentHash))
  }

  ghost predicate OnStretch(canon: seq<Block>, c0: int, c: int, h: string)
    requires -1 <= c0 && c < |canon|
  {
    exists n :: c0 < n <= c && canon[n].hash == h
  }

  /** The cursor's height is empty before the first such block is stored, and holds the node's block
      afterwards. */
  lemma TopOverHole(before: Blocks, canon: seq<Block>, c0: int, c: int, blocks: Blocks)
    requires -1 <= c0 <= c < |canon|
    requires (forall h :: h in before ==> before[h].height < c0) && Grown(before, canon, c0, c, blocks)
    ensures forall h :: h in blocks ==> blocks[h].height <= c
    ensures HashesAt(blocks, c) == if c == c0 then {} else {canon[c].hash}
  {
    forall h | h in blocks
      ensures blocks[h].height <= c && (blocks[h].height == c ==> c > c0 && canon[c].hash == h)
    {
      if h !in before {
        var n :| c0 < n <= c && canon[n].hash == h;
      }
    }
  }

  lemma GrowsByOne(before: Blocks, canon: seq<Block>, c0: int, c: int, blocks: Blocks)
    requires -1 <= c0 <= c < |canon| - 1 && Grown(before, canon, c0, c, blocks) && canon[c + 1].hash !in blocks
    ensures Grown(before, canon, c0, c + 1, blocks[canon[c + 1].hash := StoredBlock(c + 1, canon[c + 1].parentHash)])
  {
    forall h
      ensures OnStretch(canon, c0, c + 1, h) <==> OnStretch(canon, c0, c, h) || canon[c + 1].hash == h
    {
    }
  }

  lemma GrownCommits(before: Blocks, canon: seq<Block>, c0: int, c: int, blocks: Blocks, header: string -> StoredBlock)
    requires -1 <= c0 <= c < |canon| && NodeChain(canon, header) && Commits(before, header)
    requires Grown(before, canon, c0, c, blocks)
    ensures Commits(blocks, header)
  {
    forall h | h in blocks
      ensures blocks[h] == header(h)
    {
      if h !in before {
        var n :| c0 < n <= c && canon[n].hash == h;
      }
    }
  }

  /** Over a hole the next block of the node always passes for continuous, and is stored. */
  lemma GrowsOverHole(before: Blocks, canon: seq<Block>, c0: int, c: int, blocks: Blocks, header: string -> StoredBlock)
    requires -1 <= c0 <= c < |canon| - 1 && NodeChain(canon, header) && Commits(before, header)
    requires (forall h :: h in before ==> before[h].height < c0) && Grown(before, canon, c0, c, blocks)
    ensures Continuous(blocks, c + 1, canon[c + 1].parentHash)
    ensures Grown(before, canon, c0, c + 1, Insert(blocks, canon[c + 1].hash, StoredBlock(c + 1, canon[c + 1].parentHash)))
  {
    var next := canon[c + 1];
    assert header(next.hash) == StoredBlock(c + 1, next.parentHash) && (c >= 0 ==> next.parentHash == canon[c].hash);
    TopOverHole(before, canon, c0, c, blocks);
    GrownCommits(before, canon, c0, c, blocks, header);
    assert next.hash !in blocks;
    GrowsByOne(before, canon, c0, c, blocks);
  }

  /** Nothing is ever stored in the hole. */
  lemma GrownKeepsHole(before: Blocks, canon: seq<Block>, c0: int, c: int, blocks: Blocks, height: int)
    requires -1 <= c0 <= c < |canon| && Grown(before, canon, c0, c, blocks)
    requires height <= c0 && HashesAt(before, height) == {}
    ensures HashesAt(blocks, height) == {}
  {
    forall h | h in blocks
      ensures blocks[h].height != height
    {
      if h in before {
        assert h !in HashesAt(before, height);
      }
    }
  }

  method PassOverHole(ix: Indexer, canon: seq<Block>, startHeight: int, extracted: seq<Option<seq<BalanceDelta>>>,
                      ghost header: string -> StoredBlock, ghost before: Blocks, ghost c0: int)
    requires ix.Valid() && ix.cursor.Some? && -1 <= c0 <= ix.cursor.value < |canon| - 1
    requires NodeChain(canon, header) && Commits(before, header) && forall h :: h in before ==> before[h].height < c0
    requires Grown(before, canon, c0, ix.cursor.value, ix.blocks)
    requires Yields(extracted, ix.chainId, canon[ix.cursor.value + 1].hash)
    modifies ix
    ensures ix.Valid() && ix.cursor == Some(old(ix.cursor).value + 1)
    ensures Grown(before, canon, c0, ix.cursor.value, ix.blocks)
    ensures ix.acts == old(ix.acts) + [Publish(ix.cursor.value, canon[ix.cursor.value], Yield(extracted)), Persist]
  {
    GrowsOverHole(before, canon, c0, ix.cursor.value, ix.blocks, header);
    var next := canon[ix.cursor.value + 1];
    var _ := ix.Iterate(Some(|canon| - 1), startHeight, Some(next), extracted, NodeHash(canon), false);
  }

  /** What the loop does after a hole was torn: against a fixed chain it never rolls back again, stores
      the node's blocks above the cursor, and leaves the hole for good. */
  method FollowOverHole(ix: Indexer, canon: seq<Block>, startHeight: int, extracted: int -> seq<Option<seq<BalanceDelta>>>,
                        ghost header: string -> StoredBlock)
    requires ix.Valid() && ix.cursor.Some? && -1 <= ix.cursor.value < |canon| - 1
    requires NodeChain(canon, header) && Commits(ix.blocks, header)
    requires forall h :: h in ix.blocks ==> ix.blocks[h].height < ix.cursor.value
    requires forall n :: 0 <= n < |canon| ==> Yields(extracted(n), ix.chainId, canon[n].hash)
    modifies ix
    ensures ix.Valid() && ix.cursor == Some(|canon| - 1)
    ensures Grown(old(ix.blocks), canon, old(ix.cursor).value, |canon| - 1, ix.blocks)
    ensures forall h :: h <= old(ix.cursor).value && HashesAt(old(ix.blocks), h) == {} ==> HashesAt(ix.blocks, h) == {}
    ensures ClimbsOnly(old(ix.acts), ix.acts, old(ix.cursor).value)
  {
    ghost var before, c0, acts := ix.blocks, ix.cursor.value, ix.acts;
    while ix.cursor.value < |canon| - 1
      invariant ix.Valid() && ix.cursor.Some? && c0 <= ix.cursor.value <= |canon| - 1
      invariant Grown(before, canon, c0, ix.cursor.value, ix.blocks)
      invariant ClimbsOnly(acts, ix.acts, c0)
    {
      ghost var earlier := ix.acts;
      PassOverHole(ix, canon, startHeight, extracted(ix.cursor.value + 1), header, before, c0);
      ClimbsFurther(acts, earlier, ix.acts, c0);
    }
    forall h | h <= c0 && HashesAt(before, h) == {}
      ensures HashesAt(ix.blocks, h) == {}
    {
      GrownKeepsHole(before, canon, c0, ix.cursor.value, ix.blocks, h);
    }
  }

  /** The later run goes on from the earlier one with nothing but publications above c and their
      storage. */
  ghost predicate ClimbsOnly(acts: seq<Action>, later: seq<Action>, c: int) {
    acts <= later && forall i :: |acts| <= i < |later| ==> later[i].Persist? || (later[i].Publish? && later[i].height > c)
  }

  lemma ClimbsFurther(acts: seq<Action>, earlier: seq<Action>, later: seq<Action>, c: int)
    requires ClimbsOnly(acts, earlier, c) && ClimbsOnly(earlier, later, c)
    ensures ClimbsOnly(acts, later, c)
  {
  }
}
