/**
 The append-only evidence table: what its statements do to the rows, and what can ever happen to a
 row that has been written.
 */
module EvidenceLog {
  import opened Sequences
  import opened Domain

  /** The result of a call that the database or the network may fail. */
  datatype Outcome<+T> = Ok(value: T) | Err

  // ---------- selections ----------

  function ActiveOn(chainId: string): MergeEvidence -> bool {
    (e: MergeEvidence) => e.claim.chainId == chainId && e.status == Active
  }

  /** The active rows of a chain, in op_id order. */
  function ActiveRows(rows: seq<MergeEvidence>, chainId: string): seq<MergeEvidence> {
    Filter(rows, ActiveOn(chainId))
  }

  predicate Anchored(e: MergeEvidence, chainId: string, hashes: set<string>) {
    e.claim.chainId == chainId && e.claim.sourceBlockHash.Some? && e.claim.sourceBlockHash.value in hashes
  }

  function OnBlocks(chainId: string, hashes: set<string>): MergeEvidence -> bool {
    (e: MergeEvidence) => Anchored(e, chainId, hashes)
  }

  function WithOps(chainId: string, ops: set<int>): MergeEvidence -> bool {
    (e: MergeEvidence) => e.claim.chainId == chainId && e.opId in ops
  }

  // ---------- invalidation ----------

  function Strike(e: MergeEvidence, doomed: MergeEvidence -> bool, reason: Reason): MergeEvidence {
    if e.status == Active && doomed(e) then e.(status := Invalidated, invalidatedReason := Some(reason)) else e
  }

  /** The rows after every doomed active row has been invalidated. */
  function InvalidateWhere(rows: seq<MergeEvidence>, doomed: MergeEvidence -> bool, reason: Reason): (r: seq<MergeEvidence>)
    ensures |r| == |rows|
    ensures forall i :: 0 <= i < |rows| ==> r[i] == Strike(rows[i], doomed, reason)
  {
    seq(|rows|, i requires 0 <= i < |rows| => Strike(rows[i], doomed, reason))
  }

  /** The positions of the rows that an invalidation changes. */
  ghost function Doomed(rows: seq<MergeEvidence>, doomed: MergeEvidence -> bool): set<int> {
    set i | 0 <= i < |rows| && rows[i].status == Active && doomed(rows[i])
  }

  lemma NothingDoomed(rows: seq<MergeEvidence>, doomed: MergeEvidence -> bool, reason: Reason)
    requires Doomed(rows, doomed) == {}
    ensures InvalidateWhere(rows, doomed, reason) == rows
  {
    forall i | 0 <= i < |rows|
      ensures Strike(rows[i], doomed, reason) == rows[i]
    {
      assert i !in Doomed(rows, doomed);
    }
  }

  /** The first i rows have been struck where doomed says so, the others are as they were. */
  ghost predicate StruckUpTo(was: seq<MergeEvidence>, doomed: MergeEvidence -> bool, reason: Reason, i: int, rows: seq<MergeEvidence>) {
    |rows| == |was| && forall j :: 0 <= j < |rows| ==> rows[j] == if j < i then Strike(was[j], doomed, reason) else was[j]
  }

  ghost predicate HitUpTo(was: seq<MergeEvidence>, doomed: MergeEvidence -> bool, i: int) {
    exists j :: 0 <= j < i && j in Doomed(was, doomed)
  }

  lemma StrikeNext(was: seq<MergeEvidence>, doomed: MergeEvidence -> bool, reason: Reason, i: nat, rows: seq<MergeEvidence>)
    requires i < |was| && StruckUpTo(was, doomed, reason, i, rows)
    ensures rows[i] == was[i] && StruckUpTo(was, doomed, reason, i + 1, rows[i := Strike(was[i], doomed, reason)])
    ensures HitUpTo(was, doomed, i + 1) <==> HitUpTo(was, doomed, i) || (was[i].status == Active && doomed(was[i]))
  {
    assert i in Doomed(was, doomed) <==> was[i].status == Active && doomed(was[i]);
  }

  // ---------- what may happen to a row ----------

  /** e may become f: every merge field is kept, and the status moves from active to invalidated
      or not at all. */
  ghost predicate MayBecome(e: MergeEvidence, f: MergeEvidence) {
    f.opId == e.opId && f.claim == e.claim &&
    (f == e || (e.status == Active && f.status == Invalidated && f.invalidatedReason.Some?))
  }

  /** later is earlier with rows possibly invalidated and rows appended. */
  ghost predicate Advances(earlier: seq<MergeEvidence>, later: seq<MergeEvidence>) {
    |earlier| <= |later| && forall i :: 0 <= i < |earlier| ==> MayBecome(earlier[i], later[i])
  }

  lemma AdvancesTransitive(a: seq<MergeEvidence>, b: seq<MergeEvidence>, c: seq<MergeEvidence>)
    requires Advances(a, b) && Advances(b, c)
    ensures Advances(a, c)
  {
    forall i | 0 <= i < |a|
      ensures MayBecome(a[i], c[i])
    {
      assert MayBecome(a[i], b[i]) && MayBecome(b[i], c[i]);
    }
  }

  /** Rows carry ascending identifiers below next, and confidences in the range of the table's
      check constraint. */
  ghost predicate WellNumbered(rows: seq<MergeEvidence>, next: int) {
    (forall i, j :: 0 <= i < j < |rows| ==> rows[i].opId < rows[j].opId) &&
    (forall i :: 0 <= i < |rows| ==> rows[i].opId < next && 0.0 <= rows[i].claim.confidence <= 1.0)
  }

  /** rows are fresh active rows for the claims cs, in order. */
  ghost predicate Recorded(rows: seq<MergeEvidence>, cs: seq<MergeCandidate>) {
    |rows| == |cs| && forall i :: 0 <= i < |rows| ==> IsFresh(rows[i], cs[i])
  }

  ghost predicate IsFresh(e: MergeEvidence, c: MergeCandidate) {
    e.claim == c && e.status == Active && e.invalidatedReason == None
  }

  /** rows' is rows followed by fresh rows for the claims. */
  ghost predicate Appended(rows: seq<MergeEvidence>, claims: seq<MergeCandidate>, rows': seq<MergeEvidence>) {
    rows <= rows' && Recorded(rows'[|rows|..], claims)
  }

  lemma AppendedNothing(rows: seq<MergeEvidence>)
    ensures Appended(rows, [], rows)
  {
  }

  lemma AppendedOneMore(rows: seq<MergeEvidence>, claims: seq<MergeCandidate>, rows': seq<MergeEvidence>,
                        c: MergeCandidate, rows'': seq<MergeEvidence>)
    requires Appended(rows, claims, rows') && Appended(rows', [c], rows'')
    ensures Appended(rows, claims + [c], rows'')
  {
    var more, e := rows'[|rows|..], rows''[|rows'|];
    assert rows''[|rows|..] == more + [e];
    assert IsFresh(rows''[|rows'|..][0], [c][0]);
    forall i | 0 <= i < |more + [e]|
      ensures IsFresh((more + [e])[i], (claims + [c])[i])
    {
      assert i < |more| ==> IsFresh(more[i], claims[i]);
    }
  }

  class EvidenceStore {
    var rows: seq<MergeEvidence>
    var nextOp: int

    ghost predicate Valid()
      reads this
    {
      WellNumbered(rows, nextOp)
    }

    constructor ()
      ensures Valid() && rows == []
    {
      rows, nextOp := [], 1;
    }

    /** Appends an active row with the next identifier. An attempt that reports failure may burn an
        identifier, or have taken effect all the same. */
    method Append(c: MergeCandidate) returns (r: Outcome<int>)
      requires Valid()
      modifies this
      ensures Valid() && nextOp >= old(nextOp)
      ensures r.Ok? ==> c.addressA != c.addressB && rows == old(rows) + [MergeEvidence(r.value, c, Active, None)]
      ensures r.Err? ==> rows == old(rows) || (c.addressA != c.addressB && Appended(old(rows), [c], rows))
    {
      if c.addressA == c.addressB {
        return Err;
      }
      var opId, dbFails, replyLost := nextOp, *, *;
      nextOp := nextOp + 1;
      if dbFails || !(0.0 <= c.confidence <= 1.0) {
        return Err;
      }
      rows := rows + [MergeEvidence(opId, c, Active, None)];
      if replyLost {
        return Err;
      }
      return Ok(opId);
    }

    /** Invalidates the row opId of the chain if it is active, and says whether it was. */
    method Invalidate(chainId: string, opId: int, reason: Reason) returns (r: Outcome<bool>)
      requires Valid()
      modifies this`rows
      ensures Valid()
      ensures rows == InvalidateWhere(old(rows), WithOps(chainId, {opId}), reason) || (r.Err? && rows == old(rows))
      ensures r.Ok? ==> (r.value <==> Doomed(old(rows), WithOps(chainId, {opId})) != {})
    {
      var dbFails, replyLost := *, *;
      if dbFails {
        return Err;
      }
      var affected := false;
      ghost var was, doomed := rows, WithOps(chainId, {opId});
      for i := 0 to |rows|
        invariant |rows| == |was| && StruckUpTo(was, doomed, reason, i, rows)
        invariant affected <==> HitUpTo(was, doomed, i)
      {
        StrikeNext(was, doomed, reason, i, rows);
        if rows[i].claim.chainId == chainId && rows[i].opId == opId && rows[i].status == Active {
          rows := rows[i := rows[i].(status := Invalidated, invalidatedReason := Some(reason))];
          affected := true;
        }
      }
      return if replyLost then Err else Ok(affected);
    }

    method ScanActive(chainId: string) returns (r: Outcome<seq<MergeEvidence>>)
      ensures r.Ok? ==> r.value == ActiveRows(rows, chainId)
    {
      var dbFails := *;
      if dbFails {
        return Err;
      }
      var out := [];
      for i := 0 to |rows|
        invariant out == ActiveRows(rows[..i], chainId)
      {
        assert rows[..i + 1] == rows[..i] + [rows[i]];
        InitOfAppend(rows[..i], rows[i]);
        if rows[i].claim.chainId == chainId && rows[i].status == Active {
          out := out + [rows[i]];
        }
      }
      assert rows[..|rows|] == rows;
      return Ok(out);
    }

    /** The rows anchored to any of the blocks; their order is not specified. */
    method ByBlockHash(chainId: string, blockHashes: seq<string>) returns (r: Outcome<seq<MergeEvidence>>)
      ensures r.Ok? ==> forall e :: e in r.value <==> e in rows && Anchored(e, chainId, Elements(blockHashes))
    {
      var dbFails := *;
      if dbFails {
        return Err;
      }
      var out := [];
      for i := 0 to |rows|
        invariant forall e :: e in out <==> e in rows[..i] && Anchored(e, chainId, Elements(blockHashes))
      {
        assert rows[..i + 1] == rows[..i] + [rows[i]];
        if rows[i].claim.chainId == chainId && rows[i].claim.sourceBlockHash.Some? &&
           rows[i].claim.sourceBlockHash.value in blockHashes {
          out := out + [rows[i]];
        }
      }
      assert rows[..|rows|] == rows;
      return Ok(out);
    }
  }
}
