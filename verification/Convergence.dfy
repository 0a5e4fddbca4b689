/**
 The indexer against a node whose chain stays fixed: storage that is contiguous and hash-linked
 agrees with the node below one split point and disagrees above it, and passes without failures
 reach the tip after at most one rollback.
 */
module Convergence {
  import opened Sequences
  import opened Domain
  import opened IndexerMachine
  import opened Indexer

  /** Every hash determines its block's height and parent. */
  ghost predicate Commits(blocks: Blocks, header: string -> StoredBlock) {
    forall h :: h in blocks ==> blocks[h] == header(h)
  }

  /** A published block's hash commits to its height and parent. */
  ghost predicate Honest(a: Action, header: string -> StoredBlock) {
    a.Publish? ==> header(a.block.hash) == StoredBlock(a.height, a.block.parentHash)
  }

  /** canon lists the node's blocks by height, hash-linked. */
  ghost predicate NodeChain(canon: seq<Block>, header: string -> StoredBlock) {
    forall i :: 0 <= i < |canon| ==>
      header(canon[i].hash) == StoredBlock(i, canon[i].parentHash) && (i > 0 ==> canon[i].parentHash == canon[i - 1].hash)
  }

  function NodeHash(canon: seq<Block>): int -> Option<string> {
    (h: int) => if 0 <= h < |canon| then Some(canon[h].hash) else None
  }

  /** Stored blocks fill every height from the lowest one up to the cursor, each naming the block
      stored below it as its parent. */
  ghost predicate Contiguous(blocks: Blocks, cursor: int) {
    (forall h :: h in blocks ==> 0 <= blocks[h].height) &&
    (forall h, j :: h in blocks && blocks[h].height <= j <= cursor ==> HashesAt(blocks, j) != {}) &&
    (forall h, k :: h in blocks && k in blocks && blocks[k].height == blocks[h].height - 1 ==> blocks[h].parentHash == k)
  }

  ghost predicate IsCanonical(canon: seq<Block>, blocks: Blocks, h: string)
    requires h in blocks
  {
    0 <= blocks[h].height < |canon| && canon[blocks[h].height].hash == h
  }

  ghost predicate AllCanonical(canon: seq<Block>, blocks: Blocks) {
    forall h :: h in blocks ==> IsCanonical(canon, blocks, h)
  }

  /** Storage the indexer builds while nothing fails. */
  ghost predicate Tidy(blocks: Blocks, cursor: int, header: string -> StoredBlock) {
    OnePerHeight(blocks) && BelowCursor(blocks, Some(cursor)) && Contiguous(blocks, cursor) && Commits(blocks, header)
  }

  // ---------- contiguity ----------

  lemma InsertKeepsContiguous(blocks: Blocks, height: int, hash: string, parentHash: string)
    requires Contiguous(blocks, height - 1) && Continuous(blocks, height, parentHash) && 0 <= height
    requires OnePerHeight(blocks) && BelowCursor(blocks, Some(height - 1)) && hash !in blocks
    ensures Contiguous(blocks[hash := StoredBlock(height, parentHash)], height)
  {
    var blocks' := blocks[hash := StoredBlock(height, parentHash)];
    forall h, j | h in blocks' && blocks'[h].height <= j <= height
      ensures HashesAt(blocks', j) != {}
    {
      if j == height {
        assert hash in HashesAt(blocks', j);
      } else {
        assert h in blocks && HashesAt(blocks, j) != {};
        var k :| k in HashesAt(blocks, j);
        assert k in HashesAt(blocks', j);
      }
    }
    forall h, k | h in blocks' && k in blocks' && blocks'[k].height == blocks'[h].height - 1
      ensures blocks'[h].parentHash == k
    {
      if h == hash {
        assert k in HashesAt(blocks, height - 1);
        assert parentHash in HashesAt(blocks, height - 1);
      }
    }
  }

  lemma CutKeepsContiguous(blocks: Blocks, cursor: int, ancestor: int)
    requires Contiguous(blocks, cursor) && ancestor <= cursor
    ensures Contiguous(Upto(blocks, ancestor), ancestor)
  {
    var kept := Upto(blocks, ancestor);
    forall h, j | h in kept && kept[h].height <= j <= ancestor
      ensures HashesAt(kept, j) != {}
    {
      assert HashesAt(blocks, j) != {};
      var k :| k in HashesAt(blocks, j);
      assert k in HashesAt(kept, j);
    }
  }

  // ---------- agreement spreads downwards ----------

  /** Below a canonical block everything stored is canonical. */
  lemma {:induction false} CanonicalBelow(canon: seq<Block>, header: string -> StoredBlock, blocks: Blocks, cursor: int,
                                          h: string, k: string)
    requires NodeChain(canon, header) && Tidy(blocks, cursor, header)
    requires h in blocks && k in blocks && blocks[k].height <= blocks[h].height
    requires IsCanonical(canon, blocks, h)
    ensures IsCanonical(canon, blocks, k)
    decreases blocks[h].height - blocks[k].height
  {
    if blocks[k].height == blocks[h].height {
      assert k == h;
    } else {
      var j := blocks[h].height - 1;
      assert HashesAt(blocks, j) != {};
      var below :| below in HashesAt(blocks, j);
      assert blocks[h].parentHash == below;
      assert header(h).parentHash == canon[blocks[h].height].parentHash;
      CanonicalBelow(canon, header, blocks, cursor, below, k);
    }
  }

  /** The split point separates storage cleanly: everything stored above it differs from the node,
      everything stored at or below it agrees. */
  lemma CommonAncestor(canon: seq<Block>, header: string -> StoredBlock, blocks: Blocks, cursor: int, ancestor: int)
    requires NodeChain(canon, header) && Tidy(blocks, cursor, header) && cursor < |canon|
    requires SplitAt(blocks, cursor, NodeHash(canon), ancestor)
    ensures forall h :: h in blocks ==> (IsCanonical(canon, blocks, h) <==> blocks[h].height <= ancestor)
  {
    forall h | h in blocks
      ensures IsCanonical(canon, blocks, h) <==> blocks[h].height <= ancestor
    {
      assert h in HashesAt(blocks, blocks[h].height);
      if blocks[h].height <= ancestor {
        assert HashesAt(blocks, ancestor) != {};
        var top :| top in HashesAt(blocks, ancestor) && NodeHash(canon)(ancestor) == Some(top);
        CanonicalBelow(canon, header, blocks, cursor, top, h);
      } else {
        assert NodeHash(canon)(blocks[h].height).value !in HashesAt(blocks, blocks[h].height);
      }
    }
  }

  /** A block that fits the next canonical one sits on canonical storage, and the other way round. */
  lemma ContinuousIffCanonical(canon: seq<Block>, header: string -> StoredBlock, blocks: Blocks, cursor: int)
    requires NodeChain(canon, header) && Tidy(blocks, cursor, header) && 0 <= cursor + 1 < |canon|
    ensures Continuous(blocks, cursor + 1, canon[cursor + 1].parentHash) <==> AllCanonical(canon, blocks)
  {
    if HashesAt(blocks, cursor) == {} {
      assert forall h :: h in blocks ==> HashesAt(blocks, cursor) != {};
    } else {
      var top :| top in HashesAt(blocks, cursor);
      assert canon[cursor + 1].parentHash == canon[cursor].hash;
      if Continuous(blocks, cursor + 1, canon[cursor + 1].parentHash) {
        assert canon[cursor].hash in HashesAt(blocks, cursor);
        forall h | h in blocks
          ensures IsCanonical(canon, blocks, h)
        {
          CanonicalBelow(canon, header, blocks, cursor, canon[cursor].hash, h);
        }
      }
      if AllCanonical(canon, blocks) {
        assert IsCanonical(canon, blocks, top);
      }
    }
  }

  // ---------- one pass ----------

  lemma RollbackTidies(canon: seq<Block>, header: string -> StoredBlock, blocks: Blocks, cursor: int, ancestor: int)
    requires NodeChain(canon, header) && Tidy(blocks, cursor, header) && cursor < |canon|
    requires SplitAt(blocks, cursor, NodeHash(canon), ancestor) && -1 <= cursor
    ensures Tidy(Upto(blocks, ancestor), ancestor, header)
    ensures AllCanonical(canon, Upto(blocks, ancestor))
    ensures -1 <= ancestor
  {
    assert HashesAt(blocks, -1) == {};
    assert ancestor < -1 ==> HashesAt(blocks, -1) != {};
    CommonAncestor(canon, header, blocks, cursor, ancestor);
    CutKeepsContiguous(blocks, cursor, ancestor);
    var kept := Upto(blocks, ancestor);
    forall h | h in kept
      ensures IsCanonical(canon, kept, h)
    {
      assert IsCanonical(canon, blocks, h);
    }
  }

  lemma InsertTidies(blocks: Blocks, cursor: int, hash: string, parentHash: string, header: string -> StoredBlock)
    requires Tidy(blocks, cursor, header) && hash !in blocks && header(hash) == StoredBlock(cursor + 1, parentHash)
    requires 0 <= cursor + 1 && Continuous(blocks, cursor + 1, parentHash)
    ensures Tidy(blocks[hash := StoredBlock(cursor + 1, parentHash)], cursor + 1, header)
  {
    InsertKeepsContiguous(blocks, cursor + 1, hash, parentHash);
  }

  lemma InsertKeepsCanonical(canon: seq<Block>, blocks: Blocks, cursor: int)
    requires AllCanonical(canon, blocks) && 0 <= cursor + 1 < |canon|
    ensures AllCanonical(canon, blocks[canon[cursor + 1].hash := StoredBlock(cursor + 1, canon[cursor + 1].parentHash)])
  {
    var blocks' := blocks[canon[cursor + 1].hash := StoredBlock(cursor + 1, canon[cursor + 1].parentHash)];
    forall h | h in blocks'
      ensures IsCanonical(canon, blocks', h)
    {
      if h in blocks {
        assert IsCanonical(canon, blocks, h);
      }
    }
  }

  lemma AdvanceTidies(canon: seq<Block>, header: string -> StoredBlock, blocks: Blocks, cursor: int)
    requires NodeChain(canon, header) && Tidy(blocks, cursor, header) && AllCanonical(canon, blocks)
    requires 0 <= cursor + 1 < |canon|
    ensures var next := canon[cursor + 1];
            var blocks' := Insert(blocks, next.hash, StoredBlock(cursor + 1, next.parentHash));
            Tidy(blocks', cursor + 1, header) && AllCanonical(canon, blocks') && next.hash in blocks'
  {
    var next := canon[cursor + 1];
    assert header(next.hash) == StoredBlock(cursor + 1, next.parentHash);
    assert next.hash !in blocks;
    ContinuousIffCanonical(canon, header, blocks, cursor);
    InsertTidies(blocks, cursor, next.hash, next.parentHash, header);
    InsertKeepsCanonical(canon, blocks, cursor);
  }

  // ---------- all passes ----------

  ghost predicate Yields(extracted: seq<Option<seq<BalanceDelta>>>, chainId: string, hash: string) {
    forall i :: 0 <= i < |extracted| && extracted[i].Some? ==> Carries(extracted[i].value, chainId, hash)
  }

  /** The node has a block at every height that is stored. */
  lemma NodeAnswers(canon: seq<Block>, header: string -> StoredBlock, blocks: Blocks, cursor: int)
    requires Tidy(blocks, cursor, header) && cursor < |canon|
    ensures forall h :: h <= cursor && HashesAt(blocks, h) != {} ==> NodeHash(canon)(h).Some?
  {
  }

  /** What such a pass comes to, below the tip of the node's chain. */
  lemma PassOutcome(canon: seq<Block>, header: string -> StoredBlock, blocks: Blocks, cursor: int, p: Progress,
                    blocks': Blocks, cursor': Option<int>)
    requires -1 <= cursor < |canon| - 1 && NodeChain(canon, header) && Tidy(blocks, cursor, header)
    requires Moves(blocks, cursor, canon[cursor + 1], NodeHash(canon), p, blocks', cursor')
    ensures cursor'.Some? && Tidy(blocks', cursor'.value, header) && AllCanonical(canon, blocks')
    ensures AllCanonical(canon, blocks) ==>
              p.Advanced? && cursor'.value == cursor + 1 && canon[cursor + 1].hash in blocks'
    ensures !AllCanonical(canon, blocks) ==> p.RolledBack? && -1 <= cursor'.value <= cursor
  {
    ContinuousIffCanonical(canon, header, blocks, cursor);
    NodeAnswers(canon, header, blocks, cursor);
    if AllCanonical(canon, blocks) {
      AdvanceTidies(canon, header, blocks, cursor);
    } else {
      RollbackTidies(canon, header, blocks, cursor, cursor'.value);
    }
  }

  /** One pass without failures below the tip: canonical storage grows by one block, any other is cut
      back to canonical storage. */
  method Pass(ix: Indexer, canon: seq<Block>, startHeight: int, extracted: seq<Option<seq<BalanceDelta>>>,
              ghost header: string -> StoredBlock)
    returns (p: Progress)
    requires ix.Valid() && ix.cursor.Some? && -1 <= ix.cursor.value < |canon| - 1
    requires NodeChain(canon, header) && Tidy(ix.blocks, ix.cursor.value, header)
    requires Yields(extracted, ix.chainId, canon[ix.cursor.value + 1].hash)
    modifies ix
    ensures ix.Valid() && ix.cursor.Some?
    ensures Tidy(ix.blocks, ix.cursor.value, header) && AllCanonical(canon, ix.blocks)
    ensures AllCanonical(canon, old(ix.blocks)) ==>
              p.Advanced? && ix.cursor.value == old(ix.cursor).value + 1 && canon[ix.cursor.value].hash in ix.blocks
    ensures !AllCanonical(canon, old(ix.blocks)) ==> p.RolledBack? && -1 <= ix.cursor.value <= old(ix.cursor).value
  {
    ghost var blocks, cursor := ix.blocks, ix.cursor.value;
    var next := canon[ix.cursor.value + 1];
    p := ix.Iterate(Some(|canon| - 1), startHeight, Some(next), extracted, NodeHash(canon), false);
    PassOutcome(canon, header, blocks, cursor, p, ix.blocks, ix.cursor);
  }

  /** Runs passes without failures against a fixed node chain whose tip is above the cursor, until
      the loop has nothing left to do: it stops at the tip with everything stored canonical, after
      one rollback if some stored block was not canonical and none otherwise. */
  method FollowFixedChain(ix: Indexer, canon: seq<Block>, startHeight: int, extracted: int -> seq<Option<seq<BalanceDelta>>>,
                          ghost header: string -> StoredBlock)
    returns (rollbacks: nat)
    requires ix.Valid() && ix.cursor.Some? && -1 <= ix.cursor.value < |canon| - 1
    requires NodeChain(canon, header) && Tidy(ix.blocks, ix.cursor.value, header)
    requires forall n :: 0 <= n < |canon| ==> Yields(extracted(n), ix.chainId, canon[n].hash)
    modifies ix
    ensures ix.Valid() && ix.cursor == Some(|canon| - 1)
    ensures Tidy(ix.blocks, |canon| - 1, header) && AllCanonical(canon, ix.blocks)
    ensures canon[|canon| - 1].hash in ix.blocks
    ensures rollbacks == if AllCanonical(canon, old(ix.blocks)) then 0 else 1
  {
    var tip := |canon| - 1;
    rollbacks := 0;
    while ix.cursor.value < tip
      invariant ix.Valid() && ix.cursor.Some? && -1 <= ix.cursor.value <= tip
      invariant Tidy(ix.blocks, ix.cursor.value, header)
      invariant if AllCanonical(canon, ix.blocks) then rollbacks == if AllCanonical(canon, old(ix.blocks)) then 0 else 1
                else rollbacks == 0 && !AllCanonical(canon, old(ix.blocks))
      invariant ix.cursor.value == tip ==> AllCanonical(canon, ix.blocks) && canon[tip].hash in ix.blocks
      decreases !AllCanonical(canon, ix.blocks), tip - ix.cursor.value
    {
      var p := Pass(ix, canon, startHeight, extracted(ix.cursor.value + 1), header);
      if p.RolledBack? {
        rollbacks := rollbacks + 1;
      }
    }
  }
}
