/**
 Rollback and manual correction: invalidate rows, then replay. Every call into the stores and the
 audit log may fail; each method is proved to be a step of the ledger machine.
 */
module ReorgHandler {
  import opened Sequences
  import opened Domain
  import opened EvidenceLog
  import opened ClusterTables
  import opened Ledger

  lemma StrikeOps(rows: seq<MergeEvidence>, chainId: string, ops: set<int>, op: int, reason: Reason)
    ensures InvalidateWhere(InvalidateWhere(rows, WithOps(chainId, ops), reason), WithOps(chainId, {op}), reason)
            == InvalidateWhere(rows, WithOps(chainId, ops + {op}), reason)
  {
  }

  /** A number belongs to at most one row. */
  lemma OneRowPerNumber(rows: seq<MergeEvidence>, next: int, chainId: string, op: int)
    requires WellNumbered(rows, next)
    ensures |Doomed(rows, WithOps(chainId, {op}))| <= 1
  {
    var hit := Doomed(rows, WithOps(chainId, {op}));
    forall i, j | i in hit && j in hit
      ensures i == j
    {
      assert rows[i].opId == op && rows[j].opId == op;
    }
    if i :| i in hit {
      assert hit == {i};
    }
  }

  lemma StrikeOpsDoomed(rows: seq<MergeEvidence>, chainId: string, ops: set<int>, op: int, reason: Reason)
    ensures Doomed(rows, WithOps(chainId, ops + {op})) ==
            Doomed(rows, WithOps(chainId, ops)) +
            Doomed(InvalidateWhere(rows, WithOps(chainId, ops), reason), WithOps(chainId, {op}))
    ensures Doomed(rows, WithOps(chainId, ops)) !!
            Doomed(InvalidateWhere(rows, WithOps(chainId, ops), reason), WithOps(chainId, {op}))
  {
  }

  lemma StrikeKeepsNumbers(rows: seq<MergeEvidence>, next: int, doomed: MergeEvidence -> bool, reason: Reason)
    requires WellNumbered(rows, next)
    ensures WellNumbered(InvalidateWhere(rows, doomed, reason), next)
  {
  }

  lemma DisjointSize(s: set<int>, t: set<int>)
    requires s !! t && |t| <= 1
    ensures |s + t| == |s| + (if t == {} then 0 else 1)
  {
  }

  /** Striking one more number changes at most one more row, and says so. */
  lemma StrikeOpsCount(rows: seq<MergeEvidence>, next: int, chainId: string, ops: set<int>, op: int, reason: Reason)
    requires WellNumbered(rows, next)
    ensures |Doomed(rows, WithOps(chainId, ops + {op}))| == |Doomed(rows, WithOps(chainId, ops))| +
            (if Doomed(InvalidateWhere(rows, WithOps(chainId, ops), reason), WithOps(chainId, {op})) == {} then 0 else 1)
  {
    StrikeOpsDoomed(rows, chainId, ops, op, reason);
    StrikeKeepsNumbers(rows, next, WithOps(chainId, ops), reason);
    var rows' := InvalidateWhere(rows, WithOps(chainId, ops), reason);
    OneRowPerNumber(rows', next, chainId, op);
    DisjointSize(Doomed(rows, WithOps(chainId, ops)), Doomed(rows', WithOps(chainId, {op})));
  }

  /** done numbers only anchored rows, among them every active one of the first k candidates. */
  ghost predicate Striking(rows: seq<MergeEvidence>, chainId: string, hashes: set<string>,
                           candidates: seq<MergeEvidence>, k: nat, done: set<int>)
  {
    StrikesOnly(rows, chainId, done, OnBlocks(chainId, hashes)) && k <= |candidates| &&
    forall e :: e in candidates[..k] && e.status == Active ==> e.opId in done
  }

  lemma StrikingOneMore(rows: seq<MergeEvidence>, next: int, chainId: string, hashes: set<string>,
                        candidates: seq<MergeEvidence>, k: nat, done: set<int>)
    requires WellNumbered(rows, next)
    requires forall e :: e in candidates <==> e in rows && Anchored(e, chainId, hashes)
    requires Striking(rows, chainId, hashes, candidates, k, done) && k < |candidates|
    ensures Striking(rows, chainId, hashes, candidates, k + 1, done + {candidates[k].opId})
    ensures candidates[k].status != Active ==> Striking(rows, chainId, hashes, candidates, k + 1, done)
  {
    var e := candidates[k];
    assert candidates[..k + 1] == candidates[..k] + [e];
    assert e in candidates;
    var n :| 0 <= n < |rows| && rows[n] == e;
    forall i | 0 <= i < |rows| && WithOps(chainId, done + {e.opId})(rows[i])
      ensures OnBlocks(chainId, hashes)(rows[i])
    {
      if rows[i].opId == e.opId {
        assert i == n;
      } else {
        assert WithOps(chainId, done)(rows[i]);
      }
    }
  }

  lemma StruckAll(rows: seq<MergeEvidence>, chainId: string, hashes: set<string>, candidates: seq<MergeEvidence>, done: set<int>)
    requires forall e :: e in candidates <==> e in rows && Anchored(e, chainId, hashes)
    requires Striking(rows, chainId, hashes, candidates, |candidates|, done)
    ensures InvalidateWhere(rows, WithOps(chainId, done), Reorg) == InvalidateWhere(rows, OnBlocks(chainId, hashes), Reorg)
    ensures Doomed(rows, WithOps(chainId, done)) == Doomed(rows, OnBlocks(chainId, hashes))
  {
    assert candidates[..|candidates|] == candidates;
    forall i | 0 <= i < |rows| && rows[i].status == Active
      ensures WithOps(chainId, done)(rows[i]) <==> OnBlocks(chainId, hashes)(rows[i])
    {
      if OnBlocks(chainId, hashes)(rows[i]) {
        assert rows[i] in candidates;
      }
    }
  }

  lemma NothingStruck(rows: seq<MergeEvidence>, chainId: string, hashes: set<string>)
    ensures StrikesOnly(rows, chainId, {}, OnBlocks(chainId, hashes))
    ensures rows == InvalidateWhere(rows, WithOps(chainId, {}), Reorg)
  {
  }

  class Handler {
    const evidence: EvidenceStore
    const cluster: ClusterStore

    constructor (evidence: EvidenceStore, cluster: ClusterStore)
      requires cluster.evidence == evidence
      ensures this.evidence == evidence && this.cluster == cluster
    {
      this.evidence, this.cluster := evidence, cluster;
    }

    ghost predicate Valid()
      reads this, evidence
    {
      cluster.evidence == evidence && evidence.Valid()
    }

    ghost function Snapshot(): State
      reads this, evidence, cluster
    {
      State(evidence.rows, cluster.clusters, cluster.membership)
    }

    /** Invalidates the active candidates one by one, logging each to the audit trail. */
    method StrikeCandidates(chainId: string, candidates: seq<MergeEvidence>, ghost hashes: set<string>)
      returns (ok: bool, invalidatedCount: nat, ghost done: set<int>)
      requires Valid()
      requires forall e :: e in candidates <==> e in evidence.rows && Anchored(e, chainId, hashes)
      modifies evidence
      ensures Valid()
      ensures evidence.rows == InvalidateWhere(old(evidence.rows), WithOps(chainId, done), Reorg)
      ensures StrikesOnly(old(evidence.rows), chainId, done, OnBlocks(chainId, hashes))
      ensures ok ==> invalidatedCount == |Doomed(old(evidence.rows), WithOps(chainId, done))|
      ensures ok ==> Striking(old(evidence.rows), chainId, hashes, candidates, |candidates|, done)
    {
      ghost var rows, next := evidence.rows, evidence.nextOp;
      done := {};
      invalidatedCount := 0;
      assert rows == InvalidateWhere(rows, WithOps(chainId, done), Reorg);
      for k := 0 to |candidates|
        invariant Valid()
        invariant evidence.rows == InvalidateWhere(rows, WithOps(chainId, done), Reorg)
        invariant Striking(rows, chainId, hashes, candidates, k, done)
        invariant invalidatedCount == |Doomed(rows, WithOps(chainId, done))|
      {
        var e := candidates[k];
        StrikingOneMore(rows, next, chainId, hashes, candidates, k, done);
        if e.status != Active {
          continue;
        }
        StrikeOps(rows, chainId, done, e.opId, Reorg);
        StrikeOpsCount(rows, next, chainId, done, e.opId, Reorg);
        var invalidated := evidence.Invalidate(chainId, e.opId, Reorg);
        if invalidated.Err? {
          if evidence.rows != InvalidateWhere(rows, WithOps(chainId, done), Reorg) {
            done := done + {e.opId};
          }
          return false, invalidatedCount, done;
        }
        done := done + {e.opId};
        if !invalidated.value {
          continue;
        }
        invalidatedCount := invalidatedCount + 1;
        var auditFails := *;
        if auditFails {
          return false, invalidatedCount, done;
        }
      }
      ok := true;
    }

    /** Invalidates every active row of the rolled-back blocks and replays if there was one; on
        success returns how many there were. */
    method OnReorg(chainId: string, rolledBackBlockHashes: seq<string>) returns (r: Outcome<nat>)
      requires Valid()
      modifies evidence, cluster
      ensures Valid()
      ensures Step(old(Snapshot()), Rollback(chainId, Elements(rolledBackBlockHashes)), r.Ok?, Snapshot())
      ensures r.Ok? ==> r.value == |Doomed(old(evidence.rows), OnBlocks(chainId, Elements(rolledBackBlockHashes)))|
    {
      ghost var hashes, rows := Elements(rolledBackBlockHashes), evidence.rows;
      NothingStruck(rows, chainId, hashes);
      if |rolledBackBlockHashes| == 0 {
        assert Doomed(rows, OnBlocks(chainId, hashes)) == {};
        return Ok(0);
      }
      var candidates := evidence.ByBlockHash(chainId, rolledBackBlockHashes);
      if candidates.Err? {
        return Err;
      }
      var ok, invalidatedCount, done := StrikeCandidates(chainId, candidates.value, hashes);
      if !ok {
        return Err;
      }
      StruckAll(rows, chainId, hashes, candidates.value, done);
      if invalidatedCount == 0 {
        NothingDoomed(rows, OnBlocks(chainId, hashes), Reorg);
        return Ok(0);
      }
      var rebuilt := cluster.RebuildFromEvidence(chainId);
      if rebuilt.Err? {
        return Err;
      }
      return Ok(invalidatedCount);
    }

    /** Invalidates one row by hand and replays if it was active. */
    method OnManualCorrection(chainId: string, opId: int) returns (r: Outcome<bool>)
      requires Valid()
      modifies evidence, cluster
      ensures Valid()
      ensures Step(old(Snapshot()), Correction(chainId, opId), r.Ok?, Snapshot())
      ensures r.Ok? ==> (r.value <==> Doomed(old(evidence.rows), WithOps(chainId, {opId})) != {})
    {
      ghost var rows := evidence.rows;
      var invalidated := evidence.Invalidate(chainId, opId, ManualCorrection);
      if invalidated.Err? {
        return Err;
      }
      if !invalidated.value {
        NothingDoomed(rows, WithOps(chainId, {opId}), ManualCorrection);
        return Ok(false);
      }
      var auditFails := *;
      if auditFails {
        return Err;
      }
      var rebuilt := cluster.RebuildFromEvidence(chainId);
      if rebuilt.Err? {
        return Err;
      }
      return Ok(true);
    }
  }
}
