/**
 The indexer loop. Each pass is proved to be a legal run of the machine; over a node chain that
 stays fixed, the passes converge to it with at most one rollback.
 */
module Indexer {
  import opened Sequences
  import opened Domain
  import opened EvidenceLog
  import opened IndexerMachine

  datatype Progress = Stalled | Waiting | RolledBack | Advanced

  // ---------- where a stored chain leaves the node's ----------

  /** Every height above low, up to high, is stored and differs from the node. */
  ghost predicate Diverges(blocks: Blocks, low: int, high: int, nodeHash: int -> Option<string>) {
    forall h :: low < h <= high ==>
      nodeHash(h).Some? && HashesAt(blocks, h) != {} && nodeHash(h).value !in HashesAt(blocks, h)
  }

  /** Above ancestor every stored height down from the cursor differs from the node; at ancestor
      nothing is stored or the node agrees. */
  ghost predicate SplitAt(blocks: Blocks, cursor: int, nodeHash: int -> Option<string>, ancestor: int) {
    ancestor <= cursor &&
    Diverges(blocks, ancestor, cursor, nodeHash) &&
    (HashesAt(blocks, ancestor) == {} || (nodeHash(ancestor).Some? && nodeHash(ancestor).value in HashesAt(blocks, ancestor)))
  }

  lemma SplitIsUnique(blocks: Blocks, cursor: int, nodeHash: int -> Option<string>, a: int, b: int)
    requires SplitAt(blocks, cursor, nodeHash, a) && SplitAt(blocks, cursor, nodeHash, b)
    ensures a == b
  {
    assert a < b ==> nodeHash(b).Some? && HashesAt(blocks, b) != {};
    assert b < a ==> nodeHash(a).Some? && HashesAt(blocks, a) != {};
  }

  /** A stored hash that is not the node's prolongs both the divergence and the list. */
  lemma DivergesFurther(blocks: Blocks, high: int, nodeHash: int -> Option<string>, rolledBack: seq<string>, h: int, stored: string)
    requires Descends(blocks, high, rolledBack, h) && Diverges(blocks, h, high, nodeHash)
    requires HashesAt(blocks, h) == {stored} && nodeHash(h).Some? && nodeHash(h).value != stored
    ensures Descends(blocks, high, rolledBack + [stored], h - 1) && Diverges(blocks, h - 1, high, nodeHash)
  {
    assert stored in HashesAt(blocks, h);
  }

  lemma TheHashAt(blocks: Blocks, height: int, hash: string)
    requires OnePerHeight(blocks) && hash in HashesAt(blocks, height)
    ensures HashesAt(blocks, height) == {hash}
  {
  }

  /** Fewer blocks lie below once one is passed. */
  lemma UptoShrinks(blocks: Blocks, height: int, hash: string)
    requires hash in HashesAt(blocks, height)
    ensures |Upto(blocks, height - 1)| < |Upto(blocks, height)|
  {
    var low, high := Upto(blocks, height - 1).Keys, Upto(blocks, height).Keys;
    assert hash in high && hash !in low && low <= high;
    SubsetSize(low, high - {hash});
  }

  class Indexer {
    const chainId: string
    var blocks: Blocks
    var cursor: Option<int>
    var log: seq<Message>
    ghost var acts: seq<Action>

    constructor (chainId: string)
      ensures Valid() && blocks == map[] && cursor == None && log == [] && this.chainId == chainId && acts == []
    {
      this.chainId := chainId;
      blocks, cursor, log := map[], None, [];
      acts := [];
    }

    ghost predicate Traced()
      reads this
    {
      Legal(Start(chainId), acts) && Now().blocks == blocks && Now().cursor == cursor && Now().log == log
    }

    ghost function Now(): State
      requires Legal(Start(chainId), acts)
      reads this
    {
      After(Start(chainId), acts)
    }

    /** The tables and the log are where the actions so far have brought them, at rest. */
    ghost predicate Valid()
      reads this
    {
      Traced() && Now().phase.Idle?
    }

    lemma SameChain()
      requires Traced()
      ensures Now().chainId == chainId
    {
      ChainNeverChanges(Start(chainId), acts);
    }

    /** Publishing the block is legal when it fits storage and comes next. */
    lemma MayPublish(next: int, block: Block, deltas: seq<BalanceDelta>)
      requires Valid() && (cursor.Some? ==> next == cursor.value + 1) && Continuous(blocks, next, block.parentHash)
      requires Carries(deltas, chainId, block.hash)
      ensures Enabled(Now(), Publish(next, block, deltas))
    {
      SameChain();
    }

    lemma Sound()
      requires Traced()
      ensures Safe(Now()) && Now().chainId == chainId
    {
      EveryRunIsSafe(Start(chainId), acts);
      ChainNeverChanges(Start(chainId), acts);
    }

    /** The hash stored at a height; any one of them if there were several. */
    method GetBlockHash(height: int, mayFail: bool) returns (r: Outcome<Option<string>>)
      ensures r.Err? ==> mayFail
      ensures r.Ok? ==> (r.value.None? <==> HashesAt(blocks, height) == {})
      ensures r.Ok? && r.value.Some? ==> r.value.value in HashesAt(blocks, height)
    {
      var dbFails := *;
      if mayFail && dbFails {
        return Err;
      }
      var hashes := HashesAt(blocks, height);
      if hashes == {} {
        return Ok(None);
      }
      var hash :| hash in hashes;
      return Ok(Some(hash));
    }

    method IsContinuous(newHeight: int, newParentHash: string, mayFail: bool) returns (r: Outcome<bool>)
      requires OnePerHeight(blocks)
      ensures r.Err? ==> mayFail
      ensures r.Ok? ==> r.value == Continuous(blocks, newHeight, newParentHash)
    {
      var stored := GetBlockHash(newHeight - 1, mayFail);
      if stored.Err? {
        return Err;
      }
      if stored.value.None? {
        return Ok(true);
      }
      TheHashAt(blocks, newHeight - 1, stored.value.value);
      return Ok(stored.value.value == newParentHash);
    }

    /** Walks down from the block below newHeight to where storage and node part. nodeHash gives the
        node's answer for each height it is asked about, None where it fails. */
    method FindRollback(newHeight: int, nodeHash: int -> Option<string>, mayFail: bool)
      returns (r: Outcome<(seq<string>, int)>)
      requires OnePerHeight(blocks)
      ensures r.Err? ==> mayFail || exists h :: h < newHeight && HashesAt(blocks, h) != {} && nodeHash(h).None?
      ensures r.Ok? ==> Descends(blocks, newHeight - 1, r.value.0, r.value.1)
      ensures r.Ok? ==> SplitAt(blocks, newHeight - 1, nodeHash, r.value.1)
    {
      var h := newHeight - 1;
      var rolledBack: seq<string> := [];
      while true
        invariant h == newHeight - 1 - |rolledBack|
        invariant Descends(blocks, newHeight - 1, rolledBack, h)
        invariant Diverges(blocks, h, newHeight - 1, nodeHash)
        decreases |Upto(blocks, h)|
      {
        var stored := GetBlockHash(h, mayFail);
        if stored.Err? {
          return Err;
        }
        if stored.value.None? {
          break;
        }
        if nodeHash(h).None? {
          return Err;
        }
        TheHashAt(blocks, h, stored.value.value);
        if stored.value.value == nodeHash(h).value {
          break;
        }
        UptoShrinks(blocks, h, stored.value.value);
        DivergesFurther(blocks, newHeight - 1, nodeHash, rolledBack, h, stored.value.value);
        rolledBack := rolledBack + [stored.value.value];
        h := h - 1;
      }
      return Ok((rolledBack, h));
    }

    /** Records an action in the trace. */
    ghost method Trace(a: Action)
      requires Legal(Start(chainId), acts) && Enabled(Now(), a)
      modifies this`acts
      ensures acts == old(acts) + [a]
      ensures Legal(Start(chainId), acts) && Now() == Apply(old(Now()), a)
    {
      Extend(Start(chainId), acts, a);
      acts := acts + [a];
    }

    /** Stores the block and advances the cursor in one transaction, which may take effect even where
        the commit reports failure. */
    method PersistBlockAndCursor(height: int, block: Block, mayFail: bool) returns (ok: bool)
      requires Traced() && Now().phase == Published(height, block)
      modifies this
      ensures Valid() && log == old(log)
      ensures !ok ==> mayFail
      ensures (acts == old(acts) + [Persist] && cursor == Some(height) &&
               blocks == Insert(old(blocks), block.hash, StoredBlock(height, block.parentHash))) ||
              (!ok && acts == old(acts) + [Stop] && blocks == old(blocks) && cursor == old(cursor))
    {
      var commitFails, replyLost := *, *;
      if mayFail && commitFails {
        Trace(Stop);
        return false;
      }
      Trace(Persist);
      blocks := Insert(blocks, block.hash, StoredBlock(height, block.parentHash));
      cursor := Some(height);
      ok := !(mayFail && replyLost);
    }

    /** Publishes the reorg message; a failed call may still have delivered it. */
    method PublishReorg(rolledBack: seq<string>, mayFail: bool) returns (ok: bool)
      requires Traced() && Now().phase.Found? && Now().phase.rolledBack == rolledBack
      modifies this`log, this`acts
      ensures Traced() && old(acts) <= acts
      ensures !ok ==> mayFail && Now().phase.Idle?
      ensures ok ==> acts == old(acts) + [Announce] && Now().phase == Announced(rolledBack, old(Now()).phase.ancestor)
    {
      Sound();
      var callFails, delivered := *, *;
      ok := !(mayFail && callFails);
      if ok || delivered {
        Trace(Announce);
        log := log + [ReorgMessage(chainId, rolledBack)];
      }
      if !ok {
        Trace(Stop);
      }
    }

    /** Deletes the blocks from a height on; a failed call may have deleted them. */
    method DeleteBlocksFromHeight(height: int, mayFail: bool) returns (ok: bool)
      requires Traced() && Now().phase.Announced? && Now().phase.ancestor == height - 1
      modifies this`blocks, this`acts
      ensures Traced() && old(acts) <= acts
      ensures !ok ==> mayFail && Now().phase.Idle?
      ensures ok ==> acts == old(acts) + [Delete] && Now().phase == Deleted(height - 1) && blocks == Upto(old(blocks), height - 1)
    {
      var callFails, deleted := *, *;
      ok := !(mayFail && callFails);
      if ok || deleted {
        Trace(Delete);
        blocks := Upto(blocks, height - 1);
      }
      if !ok {
        Trace(Stop);
      }
    }

    /** Brings the cursor back; a failed call may have done so. */
    method UpsertCursor(height: int, mayFail: bool) returns (ok: bool)
      requires Traced() && Now().phase == Deleted(height)
      modifies this`cursor, this`acts
      ensures Valid() && old(acts) <= acts
      ensures !ok ==> mayFail
      ensures ok ==> acts == old(acts) + [Rewind] && cursor == Some(height)
    {
      var callFails, rewound := *, *;
      ok := !(mayFail && callFails);
      if ok || rewound {
        Trace(Rewind);
        cursor := Some(height);
      } else {
        Trace(Stop);
      }
    }

    /** Announces the rollback found, deletes, rewinds; each is a separate write that may fail or be the
        last thing that happens. */
    method RollBack(rolledBack: seq<string>, ancestor: int, mayFail: bool) returns (ok: bool)
      requires Traced() && Now().phase == Found(rolledBack, ancestor)
      modifies this
      ensures Valid() && old(acts) <= acts
      ensures !ok ==> mayFail
      ensures ok ==> cursor == Some(ancestor) && blocks == Upto(old(blocks), ancestor) && acts == old(acts) + [Announce, Delete, Rewind]
    {
      ok := PublishReorg(rolledBack, mayFail);
      if !ok {
        return;
      }
      ok := DeleteBlocksFromHeight(ancestor + 1, mayFail);
      if !ok {
        return;
      }
      ok := UpsertCursor(ancestor, mayFail);
    }

    /** Finds the common ancestor and rolls back to it. */
    method HandleReorg(newHeight: int, nodeHash: int -> Option<string>, mayFail: bool) returns (ok: bool)
      requires Valid() && cursor.Some? && newHeight == cursor.value + 1
      modifies this
      ensures Valid() && old(acts) <= acts
      ensures !ok ==> mayFail || exists h :: h < newHeight && HashesAt(old(blocks), h) != {} && nodeHash(h).None?
      ensures ok ==> cursor.Some? && SplitAt(old(blocks), newHeight - 1, nodeHash, cursor.value) &&
                     blocks == Upto(old(blocks), cursor.value)
      ensures ok ==> exists find: Action :: find.Find? && acts == old(acts) + [find, Announce, Delete, Rewind]
    {
      Sound();
      var found := FindRollback(newHeight, nodeHash, mayFail);
      if found.Err? {
        return false;
      }
      var rolledBack, ancestor := found.value.0, found.value.1;
      Trace(Find(rolledBack, ancestor));
      ok := RollBack(rolledBack, ancestor, mayFail);
      assert ok ==> acts == old(acts) + [Find(rolledBack, ancestor), Announce, Delete, Rewind];
    }

    /** Concatenates what each transaction yielded; a transaction that fails to extract is skipped. */
    method ExtractDeltas(extracted: seq<Option<seq<BalanceDelta>>>, ghost hash: string) returns (deltas: seq<BalanceDelta>)
      requires forall i :: 0 <= i < |extracted| && extracted[i].Some? ==> Carries(extracted[i].value, chainId, hash)
      ensures Carries(deltas, chainId, hash)
      ensures deltas == Yield(extracted)
    {
      deltas := [];
      for i := 0 to |extracted|
        invariant Carries(deltas, chainId, hash)
        invariant deltas == Yield(extracted[..i])
      {
        assert extracted[..i + 1] == extracted[..i] + [extracted[i]];
        InitOfAppend(extracted[..i], extracted[i]);
        if extracted[i].None? {
          continue;
        }
        deltas := deltas + extracted[i].value;
      }
      assert extracted[..|extracted|] == extracted;
    }

    /** Publishes the deltas of a block; a failed call may have delivered any prefix. */
    method PublishDeltas(height: int, block: Block, deltas: seq<BalanceDelta>, mayFail: bool) returns (ok: bool)
      requires Valid() && Enabled(Now(), Publish(height, block, deltas))
      modifies this`log, this`acts
      ensures Traced() && old(acts) <= acts
      ensures !ok ==> mayFail && Now().phase.Idle?
      ensures ok ==> acts == old(acts) + [Publish(height, block, deltas)] && Now().phase == Published(height, block)
    {
      var callFails := *;
      ok := !(mayFail && callFails);
      if ok {
        Trace(Publish(height, block, deltas));
        log := log + Messages(deltas);
      } else {
        var delivered: int := *;
        if 0 <= delivered <= |deltas| {
          assert forall d :: d in deltas[..delivered] ==> d in deltas;
          Trace(PublishPart(block.hash, deltas[..delivered]));
          log := log + Messages(deltas[..delivered]);
        }
      }
    }

    /** Publishes the block's deltas and only then stores it and advances the cursor. */
    method Advance(next: int, block: Block, extracted: seq<Option<seq<BalanceDelta>>>, mayFail: bool) returns (ok: bool)
      requires Valid() && (cursor.Some? ==> next == cursor.value + 1) && Continuous(blocks, next, block.parentHash)
      requires forall i :: 0 <= i < |extracted| && extracted[i].Some? ==> Carries(extracted[i].value, chainId, block.hash)
      modifies this
      ensures Valid() && old(acts) <= acts
      ensures !ok ==> mayFail
      ensures (cursor == Some(next) && acts == old(acts) + [Publish(next, block, Yield(extracted)), Persist] &&
               blocks == Insert(old(blocks), block.hash, StoredBlock(next, block.parentHash))) ||
              (!ok && blocks == old(blocks) && cursor == old(cursor))
    {
      var deltas := ExtractDeltas(extracted, block.hash);
      MayPublish(next, block, deltas);
      ok := PublishDeltas(next, block, deltas, mayFail);
      if ok {
        ok := PersistBlockAndCursor(next, block, mayFail);
      }
    }

    /** One pass of the loop. latest, fetched, extracted and nodeHash are the node's answers, None
        where it fails; mayFail lets the tables and the log fail as well. */
    method Iterate(latest: Option<int>, startHeight: int, fetched: Option<Block>,
                   extracted: seq<Option<seq<BalanceDelta>>>, nodeHash: int -> Option<string>, mayFail: bool)
      returns (p: Progress)
      requires Valid()
      requires fetched.Some? ==>
                 forall i :: 0 <= i < |extracted| && extracted[i].Some? ==> Carries(extracted[i].value, chainId, fetched.value.hash)
      modifies this
      ensures Valid() && old(acts) <= acts
      ensures p.Waiting? ==>
                latest.Some? && Resume(old(cursor), startHeight, latest.value) >= latest.value &&
                acts == old(acts) && blocks == old(blocks) && cursor == old(cursor) && log == old(log)
      ensures !mayFail && latest.Some? && Resume(old(cursor), startHeight, latest.value) >= latest.value ==> p.Waiting?
      ensures !mayFail && latest.Some? && fetched.Some? && Resume(old(cursor), startHeight, latest.value) < latest.value ==>
                Moves(old(blocks), Resume(old(cursor), startHeight, latest.value), fetched.value, nodeHash, p, blocks, cursor)
      ensures p.Advanced? ==>
                fetched.Some? && cursor.Some? &&
                acts == old(acts) + [Publish(cursor.value, fetched.value, Yield(extracted)), Persist]
      ensures p.RolledBack? ==> exists find: Action :: find.Find? && acts == old(acts) + [find, Announce, Delete, Rewind]
    {
      if latest.None? {
        return Stalled;
      }
      var cursorFails := *;
      if mayFail && cursorFails {
        return Stalled;
      }
      var height := Resume(cursor, startHeight, latest.value);
      if height >= latest.value {
        return Waiting;
      }
      var next := height + 1;
      if fetched.None? {
        return Stalled;
      }
      Sound();
      var continuous := IsContinuous(next, fetched.value.parentHash, mayFail);
      if continuous.Err? {
        return Stalled;
      }
      if !continuous.value {
        StoredNeedsCursor(Now(), next, fetched.value.parentHash);
        var handled := HandleReorg(next, nodeHash, mayFail);
        return if handled then RolledBack else Stalled;
      }
      var advanced := Advance(next, fetched.value, extracted, mayFail);
      return if advanced then Advanced else Stalled;
    }
  }

  /** What a pass that meets no failure of the tables or the log does at a height below the tip. */
  ghost predicate Moves(blocks: Blocks, height: int, block: Block, nodeHash: int -> Option<string>, p: Progress,
                        blocks': Blocks, cursor': Option<int>)
  {
    if Continuous(blocks, height + 1, block.parentHash) then
      p.Advanced? && cursor' == Some(height + 1) &&
      blocks' == Insert(blocks, block.hash, StoredBlock(height + 1, block.parentHash))
    else if forall h :: h <= height && HashesAt(blocks, h) != {} ==> nodeHash(h).Some? then
      p.RolledBack? && cursor'.Some? && SplitAt(blocks, height, nodeHash, cursor'.value) &&
      blocks' == Upto(blocks, cursor'.value)
    else p.RolledBack? || p.Stalled?
  }

  /** The height already done: the cursor, or on the first start the one before the configured height,
      or before the tip. */
  function Resume(cursor: Option<int>, startHeight: int, latest: int): int {
    if cursor.Some? then cursor.value else if startHeight > 0 then startHeight - 1 else latest - 1
  }

  ghost function Yield(extracted: seq<Option<seq<BalanceDelta>>>): seq<BalanceDelta> {
    if extracted == [] then []
    else Yield(Init(extracted)) + (if Last(extracted).Some? then Last(extracted).value else [])
  }

  lemma StoredNeedsCursor(s: State, height: int, parentHash: string)
    requires Safe(s) && !Continuous(s.blocks, height, parentHash)
    ensures s.cursor.Some?
  {
    var h :| h in HashesAt(s.blocks, height - 1);
  }
}
