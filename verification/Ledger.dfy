/**
 The log and its cache as one state machine: recording a batch, rolling back blocks, correcting a
 row by hand, and rebuilding, each of which may fail part of the way through.
 */
module Ledger {
  import opened Sequences
  import opened Domain
  import opened ReplaySpec
  import opened ReplayPartition
  import opened ReplayLocality
  import opened EvidenceLog
  import opened ClusterTables

  datatype State = State(
    rows: seq<MergeEvidence>,
    clusters: map<string, ClusterTable>,
    membership: map<string, MembershipTable>)

  datatype Op =
    | Record(chainId: string, claims: seq<MergeCandidate>)
    | Rollback(chainId: string, hashes: set<string>)
    | Correction(chainId: string, opId: int)
    | Rebuild(chainId: string)

  ghost predicate AgreesOn(s: State, chainId: string) {
    TablesAgree(s.rows, s.clusters, s.membership, chainId)
  }

  /** s with the partitions of the chain replayed. */
  ghost function Rebuilt(s: State, chainId: string): State {
    s.(clusters := s.clusters[chainId := ClusterTableOf(ActiveRows(s.rows, chainId))],
       membership := s.membership[chainId := MembershipTableOf(ActiveRows(s.rows, chainId))])
  }

  /** s after a successful invalidation: replayed only when some row changed. */
  ghost function Struck(s: State, chainId: string, doomed: MergeEvidence -> bool, reason: Reason): State {
    if Doomed(s.rows, doomed) == {} then s
    else Rebuilt(s.(rows := InvalidateWhere(s.rows, doomed, reason)), chainId)
  }

  ghost function RolledBack(s: State, chainId: string, hashes: set<string>): State {
    Struck(s, chainId, OnBlocks(chainId, hashes), Reorg)
  }

  /** What op may do to s, given whether it reported success. An operation that reports failure may
      have done nothing, a part, or all of its work. */
  ghost predicate Step(s: State, op: Op, ok: bool, s': State) {
    match op
    case Record(chainId, claims) =>
      |s.rows| <= |s'.rows| <= |s.rows| + |claims| &&
      Appended(s.rows, claims[..|s'.rows| - |s.rows|], s'.rows) &&
      ((|s'.rows| == |s.rows| + |claims| && s' == Rebuilt(s.(rows := s'.rows), chainId)) ||
       (!ok && s' == s.(rows := s'.rows)))
    case Rollback(chainId, hashes) =>
      s' == RolledBack(s, chainId, hashes) || (!ok && PartlyStruck(s, chainId, hashes, s'))
    case Correction(chainId, opId) =>
      s' == Struck(s, chainId, WithOps(chainId, {opId}), ManualCorrection) ||
      (!ok && (s' == s || s' == s.(rows := InvalidateWhere(s.rows, WithOps(chainId, {opId}), ManualCorrection))))
    case Rebuild(chainId) =>
      s' == Rebuilt(s, chainId) || (!ok && s' == s)
  }

  /** Some rows of the blocks have been invalidated and nothing has been replayed. */
  ghost predicate PartlyStruck(s: State, chainId: string, hashes: set<string>, s': State) {
    s' == s.(rows := s'.rows) &&
    exists ops: set<int> :: StrikesOnly(s.rows, chainId, ops, OnBlocks(chainId, hashes)) &&
      s'.rows == InvalidateWhere(s.rows, WithOps(chainId, ops), Reorg)
  }

  /** Striking the rows numbered ops strikes only rows that doomed selects. */
  ghost predicate StrikesOnly(rows: seq<MergeEvidence>, chainId: string, ops: set<int>, doomed: MergeEvidence -> bool) {
    forall i :: 0 <= i < |rows| && WithOps(chainId, ops)(rows[i]) ==> doomed(rows[i])
  }

  // ---------- every run ----------

  datatype Event = Event(op: Op, ok: bool)

  /** states is a run through events. */
  ghost predicate Run(events: seq<Event>, states: seq<State>) {
    |states| == |events| + 1 &&
    forall i :: 0 <= i < |events| ==> Step(states[i], events[i].op, events[i].ok, states[i + 1])
  }

  lemma StrikeAdvances(rows: seq<MergeEvidence>, doomed: MergeEvidence -> bool, reason: Reason)
    ensures Advances(rows, InvalidateWhere(rows, doomed, reason))
  {
  }

  lemma StepAdvances(s: State, op: Op, ok: bool, s': State)
    requires Step(s, op, ok, s')
    ensures Advances(s.rows, s'.rows)
  {
    match op
    case Record(chainId, claims) =>
    case Rollback(chainId, hashes) =>
      StrikeAdvances(s.rows, OnBlocks(chainId, hashes), Reorg);
      if s' != RolledBack(s, chainId, hashes) {
        var ops: set<int> :| s'.rows == InvalidateWhere(s.rows, WithOps(chainId, ops), Reorg);
        StrikeAdvances(s.rows, WithOps(chainId, ops), Reorg);
      }
    case Correction(chainId, opId) =>
      StrikeAdvances(s.rows, WithOps(chainId, {opId}), ManualCorrection);
    case Rebuild(chainId) =>
  }

  /** Over every run, successful or not, no row is dropped, no merge field changes, and the status
      of a row only moves from active to invalidated. */
  lemma {:induction false} RunKeepsLog(events: seq<Event>, states: seq<State>)
    requires Run(events, states)
    ensures Advances(states[0].rows, states[|events|].rows)
  {
    if events != [] {
      var n := |events| - 1;
      RunKeepsLog(events[..n], states[..n + 1]);
      assert Step(states[n], events[n].op, events[n].ok, states[n + 1]);
      StepAdvances(states[n], events[n].op, events[n].ok, states[n + 1]);
      AdvancesTransitive(states[0].rows, states[n].rows, states[n + 1].rows);
    }
  }

  // ---------- the cache ----------

  lemma RebuiltAgrees(s: State, chainId: string)
    ensures AgreesOn(Rebuilt(s, chainId), chainId)
  {
  }

  lemma {:induction false} OtherChainUntouched(rows: seq<MergeEvidence>, doomed: MergeEvidence -> bool, reason: Reason, other: string)
    requires forall e :: e in rows && doomed(e) ==> e.claim.chainId != other
    ensures ActiveRows(InvalidateWhere(rows, doomed, reason), other) == ActiveRows(rows, other)
  {
    if rows != [] {
      InitElements(rows);
      OtherChainUntouched(Init(rows), doomed, reason, other);
      assert Init(InvalidateWhere(rows, doomed, reason)) == InvalidateWhere(Init(rows), doomed, reason);
    }
  }

  lemma {:induction false} OtherChainNotAppended(rows: seq<MergeEvidence>, more: seq<MergeEvidence>, other: string)
    requires forall e :: e in more ==> e.claim.chainId != other
    ensures ActiveRows(rows + more, other) == ActiveRows(rows, other)
  {
    if more == [] {
      assert rows + more == rows;
    } else {
      InitElements(more);
      assert rows + more == rows + Init(more) + [Last(more)];
      InitOfAppend(rows + Init(more), Last(more));
      OtherChainNotAppended(rows, Init(more), other);
    }
  }

  /** Nothing that the agreement on a chain depends on has changed. */
  ghost predicate SameFor(s: State, s': State, chainId: string) {
    ActiveRows(s'.rows, chainId) == ActiveRows(s.rows, chainId) &&
    PartOf(s'.clusters, chainId) == PartOf(s.clusters, chainId) &&
    PartOf(s'.membership, chainId) == PartOf(s.membership, chainId)
  }

  lemma RecordSameForOthers(s: State, chainId: string, claims: seq<MergeCandidate>, ok: bool, s': State, other: string)
    requires Step(s, Record(chainId, claims), ok, s') && other != chainId
    requires forall c :: c in claims ==> c.chainId != other
    ensures SameFor(s, s', other)
  {
    var more := s'.rows[|s.rows|..];
    forall e | e in more
      ensures e.claim.chainId != other
    {
      var i :| 0 <= i < |more| && more[i] == e;
      assert IsFresh(more[i], claims[i]);
    }
    assert s'.rows == s.rows + more;
    OtherChainNotAppended(s.rows, more, other);
    RebuiltSameForOthers(s.(rows := s'.rows), chainId, other);
  }

  lemma StruckSameForOthers(s: State, chainId: string, doomed: MergeEvidence -> bool, reason: Reason, other: string)
    requires other != chainId && forall e :: e in s.rows && doomed(e) ==> e.claim.chainId == chainId
    ensures SameFor(s, Struck(s, chainId, doomed, reason), other)
    ensures SameFor(s, s.(rows := InvalidateWhere(s.rows, doomed, reason)), other)
  {
    OtherChainUntouched(s.rows, doomed, reason, other);
  }

  lemma RollbackSameForOthers(s: State, chainId: string, hashes: set<string>, ok: bool, s': State, other: string)
    requires Step(s, Rollback(chainId, hashes), ok, s') && other != chainId
    ensures SameFor(s, s', other)
  {
    if s' == RolledBack(s, chainId, hashes) {
      StruckSameForOthers(s, chainId, OnBlocks(chainId, hashes), Reorg, other);
    } else {
      var ops: set<int> :| s'.rows == InvalidateWhere(s.rows, WithOps(chainId, ops), Reorg);
      StruckSameForOthers(s, chainId, WithOps(chainId, ops), Reorg, other);
    }
  }

  lemma CorrectionSameForOthers(s: State, chainId: string, opId: int, ok: bool, s': State, other: string)
    requires Step(s, Correction(chainId, opId), ok, s') && other != chainId
    ensures SameFor(s, s', other)
  {
    StruckSameForOthers(s, chainId, WithOps(chainId, {opId}), ManualCorrection, other);
  }

  lemma PutElsewhere<K, V>(m: map<string, map<K, V>>, k: string, v: map<K, V>, other: string)
    requires k != other
    ensures PartOf(m[k := v], other) == PartOf(m, other)
  {
  }

  lemma RebuiltSameForOthers(s: State, chainId: string, other: string)
    requires other != chainId
    ensures SameFor(s, Rebuilt(s, chainId), other)
  {
    PutElsewhere(s.clusters, chainId, ClusterTableOf(ActiveRows(s.rows, chainId)), other);
    PutElsewhere(s.membership, chainId, MembershipTableOf(ActiveRows(s.rows, chainId)), other);
  }

  lemma RebuildSameForOthers(s: State, chainId: string, ok: bool, s': State, other: string)
    requires Step(s, Rebuild(chainId), ok, s') && other != chainId
    ensures SameFor(s, s', other)
  {
    RebuiltSameForOthers(s, chainId, other);
  }

  /** The operation is about chains other than this one. */
  ghost predicate Elsewhere(op: Op, other: string) {
    op.chainId != other && (op.Record? ==> forall c :: c in op.claims ==> c.chainId != other)
  }

  lemma StepSameForOthers(s: State, op: Op, ok: bool, s': State, other: string)
    requires Step(s, op, ok, s') && Elsewhere(op, other)
    ensures SameFor(s, s', other)
  {
    match op
    case Record(chainId, claims) => RecordSameForOthers(s, chainId, claims, ok, s', other);
    case Rollback(chainId, hashes) => RollbackSameForOthers(s, chainId, hashes, ok, s', other);
    case Correction(chainId, opId) => CorrectionSameForOthers(s, chainId, opId, ok, s', other);
    case Rebuild(chainId) => RebuildSameForOthers(s, chainId, ok, s', other);
  }

  /** No operation about other chains, successful or not, disturbs the cache of a chain. */
  lemma StepKeepsOtherChains(s: State, op: Op, ok: bool, s': State, other: string)
    requires Step(s, op, ok, s') && Elsewhere(op, other)
    ensures AgreesOn(s', other) <==> AgreesOn(s, other)
  {
    StepSameForOthers(s, op, ok, s', other);
  }

  /** Success restores the cache exactly: recording and rebuilding always, an invalidation when it
      changed a row or the cache was right before. The last case is the skipped rebuild. */
  lemma SuccessAndAgreement(s: State, op: Op, s': State)
    requires Step(s, op, true, s')
    ensures op.Record? || op.Rebuild? ==> AgreesOn(s', op.chainId)
    ensures op.Rollback? ==>
              (AgreesOn(s', op.chainId) <==> AgreesOn(s, op.chainId) || Doomed(s.rows, OnBlocks(op.chainId, op.hashes)) != {})
    ensures op.Correction? ==>
              (AgreesOn(s', op.chainId) <==> AgreesOn(s, op.chainId) || Doomed(s.rows, WithOps(op.chainId, {op.opId})) != {})
  {
    RebuiltAgrees(s.(rows := s'.rows), op.chainId);
  }

  lemma StepKeepsAgreement(s: State, op: Op, ok: bool, s': State, chainId: string)
    requires Step(s, op, ok, s') && AgreesOn(s, chainId)
    requires if op.chainId == chainId then ok else Elsewhere(op, chainId)
    ensures AgreesOn(s', chainId)
  {
    if op.chainId == chainId {
      SuccessAndAgreement(s, op, s');
    } else {
      StepKeepsOtherChains(s, op, ok, s', chainId);
    }
  }

  /** Over every run whose operations on a chain succeed, an agreeing cache of that chain stays in
      agreement. */
  lemma {:induction false} RunKeepsAgreement(events: seq<Event>, states: seq<State>, chainId: string)
    requires Run(events, states)
    requires forall i :: 0 <= i < |events| ==>
               if events[i].op.chainId == chainId then events[i].ok else Elsewhere(events[i].op, chainId)
    requires AgreesOn(states[0], chainId)
    ensures AgreesOn(states[|events|], chainId)
  {
    if events != [] {
      var n := |events| - 1;
      assert Run(events[..n], states[..n + 1]);
      RunKeepsAgreement(events[..n], states[..n + 1], chainId);
      assert Step(states[n], events[n].op, events[n].ok, states[n + 1]);
      StepKeepsAgreement(states[n], events[n].op, events[n].ok, states[n + 1], chainId);
    }
  }

  lemma EmptyReplay(rows: seq<MergeEvidence>, chainId: string)
    requires forall e :: e in rows ==> e.status == Invalidated
    ensures forall x :: x !in MembershipTableOf(ActiveRows(rows, chainId))
  {
    FilterNone(rows, ActiveOn(chainId));
  }

  /** A useful row of a chain belongs in the membership table of that chain. */
  lemma UsefulRowIsMember(rows: seq<MergeEvidence>, e: MergeEvidence)
    requires e in rows && Useful(e)
    ensures e.claim.addressA in MembershipTableOf(ActiveRows(rows, e.claim.chainId))
  {
    FilterElements(rows, ActiveOn(e.claim.chainId));
    TouchedIffSeen(ActiveRows(rows, e.claim.chainId), e.claim.addressA);
    assert Touches(e, e.claim.addressA);
  }

  /** Striking the only row by its number is striking it by its block. */
  lemma StrikeOnlyRow(e: MergeEvidence, hash: string)
    requires Anchored(e, e.claim.chainId, {hash}) && e.status == Active
    ensures var rows := InvalidateWhere([e], WithOps(e.claim.chainId, {e.opId}), Reorg);
            |rows| == 1 && rows[0].status == Invalidated && Doomed(rows, OnBlocks(e.claim.chainId, {hash})) == {}
    ensures StrikesOnly([e], e.claim.chainId, {e.opId}, OnBlocks(e.claim.chainId, {hash}))
  {
  }

  lemma FailedRollbackStep(s: State, e: MergeEvidence, hash: string)
    requires s.rows == [e] && Anchored(e, e.claim.chainId, {hash}) && e.status == Active
    ensures Step(s, Rollback(e.claim.chainId, {hash}), false,
                 s.(rows := InvalidateWhere([e], WithOps(e.claim.chainId, {e.opId}), Reorg)))
  {
    StrikeOnlyRow(e, hash);
  }

  lemma TableOutlivesRow(s: State, e: MergeEvidence)
    requires Useful(e) && forall f :: f in s.rows ==> f.status == Invalidated
    requires PartOf(s.membership, e.claim.chainId) == MembershipTableOf(ActiveRows([e], e.claim.chainId))
    ensures !AgreesOn(s, e.claim.chainId)
  {
    EmptyReplay(s.rows, e.claim.chainId);
    UsefulRowIsMember([e], e);
  }

  lemma RetryLeavesStaleCache(e: MergeEvidence, hash: string) returns (s0: State, s1: State)
    requires Useful(e) && Anchored(e, e.claim.chainId, {hash})
    ensures AgreesOn(s0, e.claim.chainId) && s0.rows == [e]
    ensures Step(s0, Rollback(e.claim.chainId, {hash}), false, s1)
    ensures Step(s1, Rollback(e.claim.chainId, {hash}), true, s1)
    ensures !AgreesOn(s1, e.claim.chainId)
  {
    var chainId := e.claim.chainId;
    s0 := Rebuilt(State([e], map[], map[]), chainId);
    s1 := s0.(rows := InvalidateWhere([e], WithOps(chainId, {e.opId}), Reorg));
    RebuiltAgrees(State([e], map[], map[]), chainId);
    FailedRollbackStep(s0, e, hash);
    StrikeOnlyRow(e, hash);
    TableOutlivesRow(s1, e);
  }

  /** A rollback that fails after invalidating and is then retried reports success and leaves the
      cache stale: the retry finds nothing to invalidate and skips the rebuild. */
  lemma RetriedRollbackLeavesStaleCache() returns (s0: State, s1: State, s2: State)
    ensures AgreesOn(s0, "btc")
    ensures Step(s0, Rollback("btc", {"b1"}), false, s1)
    ensures Step(s1, Rollback("btc", {"b1"}), true, s2)
    ensures !AgreesOn(s2, "btc")
  {
    var e := MergeEvidence(1, MergeCandidate("btc", "A", "B", "common-input", Some("tx1"), Some("b1"), Some(1), 0.5), Active, None);
    s0, s1 := RetryLeavesStaleCache(e, "b1");
    s2 := s1;
  }

  /** Fresh rows for the claims. */
  ghost function RowsFor(claims: seq<MergeCandidate>): (rows: seq<MergeEvidence>)
    ensures Recorded(rows, claims)
  {
    seq(|claims|, i requires 0 <= i < |claims| => MergeEvidence(i, claims[i], Active, None))
  }

  /** s, which holds no rows yet, after recording the claims with success. */
  ghost function FirstRecorded(s: State, chainId: string, claims: seq<MergeCandidate>): State {
    Rebuilt(s.(rows := RowsFor(claims)), chainId)
  }

  lemma RecordFromNothing(s: State, chainId: string, claims: seq<MergeCandidate>)
    requires s.rows == []
    ensures Step(s, Record(chainId, claims), true, FirstRecorded(s, chainId, claims))
  {
    var rows := RowsFor(claims);
    assert rows[0..] == rows && claims[..|claims|] == claims;
    assert Appended([], claims, rows);
  }

  /** Recording a claim on another chain leaves what was kept of that chain without the claim. */
  lemma ForeignRowMissing(s: State, chainId: string, claims: seq<MergeCandidate>, c: MergeCandidate)
    requires s.rows == [] && AgreesOn(s, c.chainId)
    requires c in claims && c.chainId != chainId && c.addressA != c.addressB
    ensures !AgreesOn(FirstRecorded(s, chainId, claims), c.chainId)
  {
    var rows := RowsFor(claims);
    EmptyReplay([], c.chainId);
    var i :| 0 <= i < |claims| && claims[i] == c;
    assert IsFresh(rows[i], claims[i]);
    UsefulRowIsMember(rows, rows[i]);
  }

  /** A claim on another chain, recorded with success, leaves the cache of that chain stale. */
  lemma ForeignClaimLeavesStaleCache(chainId: string, claims: seq<MergeCandidate>, c: MergeCandidate) returns (s0: State, s1: State)
    requires c in claims && c.chainId != chainId && c.addressA != c.addressB
    ensures AgreesOn(s0, c.chainId) && Step(s0, Record(chainId, claims), true, s1) && !AgreesOn(s1, c.chainId)
  {
    var empty := State([], map[], map[]);
    RebuiltAgrees(empty, c.chainId);
    s0 := Rebuilt(empty, c.chainId);
    RecordFromNothing(s0, chainId, claims);
    ForeignRowMissing(s0, chainId, claims, c);
    s1 := FirstRecorded(s0, chainId, claims);
  }

  /** Recording the claims with success never costs another chain its agreement. */
  ghost predicate SparesCache(chainId: string, claims: seq<MergeCandidate>, other: string) {
    forall s, s' {:trigger Step(s, Record(chainId, claims), true, s')} ::
      Step(s, Record(chainId, claims), true, s') && AgreesOn(s, other) ==> AgreesOn(s', other)
  }

  /** Exactly when a batch run for one chain spares the cache of another: when none of its claims is on
      that chain. */
  lemma SparesCacheIffNoForeignClaim(chainId: string, claims: seq<MergeCandidate>, other: string)
    requires other != chainId && forall c :: c in claims ==> c.addressA != c.addressB
    ensures SparesCache(chainId, claims, other) <==> forall c :: c in claims ==> c.chainId != other
  {
    if c :| c in claims && c.chainId == other {
      var s0, s1 := ForeignClaimLeavesStaleCache(chainId, claims, c);
      assert Step(s0, Record(chainId, claims), true, s1);
    } else {
      forall s, s' | Step(s, Record(chainId, claims), true, s') && AgreesOn(s, other)
        ensures AgreesOn(s', other)
      {
        StepKeepsOtherChains(s, Record(chainId, claims), true, s', other);
      }
    }
  }

  // ---------- rollback algebra ----------

  lemma StrikeTwice(rows: seq<MergeEvidence>, chainId: string, h1: set<string>, h2: set<string>)
    ensures InvalidateWhere(InvalidateWhere(rows, OnBlocks(chainId, h1), Reorg), OnBlocks(chainId, h2), Reorg)
            == InvalidateWhere(rows, OnBlocks(chainId, h1 + h2), Reorg)
  {
  }

  lemma StrikeTwiceDoomed(rows: seq<MergeEvidence>, chainId: string, h1: set<string>, h2: set<string>)
    ensures Doomed(rows, OnBlocks(chainId, h1 + h2)) ==
            Doomed(rows, OnBlocks(chainId, h1)) +
            Doomed(InvalidateWhere(rows, OnBlocks(chainId, h1), Reorg), OnBlocks(chainId, h2))
  {
  }

  lemma RolledBackRows(s: State, chainId: string, hashes: set<string>)
    ensures RolledBack(s, chainId, hashes).rows == InvalidateWhere(s.rows, OnBlocks(chainId, hashes), Reorg)
  {
    if Doomed(s.rows, OnBlocks(chainId, hashes)) == {} {
      NothingDoomed(s.rows, OnBlocks(chainId, hashes), Reorg);
    }
  }

  lemma PutTwice<K, V>(m: map<K, V>, k: K, v: V, v': V)
    ensures m[k := v][k := v'] == m[k := v']
  {
  }

  /** A later replay of a chain replaces whatever an earlier one left there. */
  lemma RebuiltAgain(s: State, rows: seq<MergeEvidence>, rows': seq<MergeEvidence>, chainId: string)
    ensures Rebuilt(Rebuilt(s.(rows := rows), chainId).(rows := rows'), chainId) == Rebuilt(s.(rows := rows'), chainId)
  {
    PutTwice(s.clusters, chainId, ClusterTableOf(ActiveRows(rows, chainId)), ClusterTableOf(ActiveRows(rows', chainId)));
    PutTwice(s.membership, chainId, MembershipTableOf(ActiveRows(rows, chainId)), MembershipTableOf(ActiveRows(rows', chainId)));
  }

  lemma RollBackTwice(s: State, chainId: string, h1: set<string>, h2: set<string>)
    ensures RolledBack(RolledBack(s, chainId, h1), chainId, h2) == RolledBack(s, chainId, h1 + h2)
  {
    StrikeTwice(s.rows, chainId, h1, h2);
    StrikeTwiceDoomed(s.rows, chainId, h1, h2);
    RolledBackRows(s, chainId, h1);
    var rows1 := InvalidateWhere(s.rows, OnBlocks(chainId, h1), Reorg);
    var rows2 := InvalidateWhere(rows1, OnBlocks(chainId, h2), Reorg);
    if Doomed(s.rows, OnBlocks(chainId, h1)) == {} {
      NothingDoomed(s.rows, OnBlocks(chainId, h1), Reorg);
    } else if Doomed(rows1, OnBlocks(chainId, h2)) == {} {
      NothingDoomed(rows1, OnBlocks(chainId, h2), Reorg);
    } else {
      RebuiltAgain(s, rows1, rows2, chainId);
    }
  }

  /** Rollbacks commute, merge into one rollback of the union, and repeat without effect. */
  lemma RollbackAlgebra(s: State, chainId: string, h1: set<string>, h2: set<string>)
    ensures RolledBack(RolledBack(s, chainId, h1), chainId, h2) == RolledBack(RolledBack(s, chainId, h2), chainId, h1)
    ensures RolledBack(RolledBack(s, chainId, h1), chainId, h2) == RolledBack(s, chainId, h1 + h2)
    ensures RolledBack(RolledBack(s, chainId, h1), chainId, h1) == RolledBack(s, chainId, h1)
  {
    RollBackTwice(s, chainId, h1, h2);
    RollBackTwice(s, chainId, h2, h1);
    RollBackTwice(s, chainId, h1, h1);
    assert h1 + h2 == h2 + h1 && h1 + h1 == h1;
  }

  /** A rollback leaves no active row on its blocks, and touches no row on another block, on another
      chain, or without a block. */
  lemma RollbackReach(s: State, chainId: string, hashes: set<string>, i: nat)
    requires i < |s.rows|
    ensures |RolledBack(s, chainId, hashes).rows| == |s.rows|
    ensures Anchored(s.rows[i], chainId, hashes) ==> RolledBack(s, chainId, hashes).rows[i].status == Invalidated
    ensures !Anchored(s.rows[i], chainId, hashes) ==> RolledBack(s, chainId, hashes).rows[i] == s.rows[i]
  {
    RolledBackRows(s, chainId, hashes);
  }

  // ---------- clusters across a rollback ----------

  function Spared(chainId: string, hashes: set<string>): MergeEvidence -> bool {
    (e: MergeEvidence) => !Anchored(e, chainId, hashes)
  }

  /** A rollback removes exactly the rows of the rolled-back blocks from what is replayed. */
  lemma {:induction false} RollbackDropsRows(rows: seq<MergeEvidence>, chainId: string, hashes: set<string>)
    ensures ActiveRows(InvalidateWhere(rows, OnBlocks(chainId, hashes), Reorg), chainId)
            == Filter(ActiveRows(rows, chainId), Spared(chainId, hashes))
  {
    if rows != [] {
      RollbackDropsRows(Init(rows), chainId, hashes);
      assert Init(InvalidateWhere(rows, OnBlocks(chainId, hashes), Reorg)) ==
             InvalidateWhere(Init(rows), OnBlocks(chainId, hashes), Reorg);
      if ActiveOn(chainId)(Last(rows)) {
        InitOfAppend(ActiveRows(Init(rows), chainId), Last(rows));
      }
    }
  }

  /** A cluster none of whose rows was rolled back comes out of the rollback unchanged. */
  lemma UnaffectedClusterSurvives(s: State, chainId: string, hashes: set<string>, k: Cluster)
    requires k in Clusters(ActiveRows(s.rows, chainId))
    requires forall e :: e in s.rows && e.status == Active && Anchored(e, chainId, hashes) ==>
               !(e.claim.addressA in k.members && e.claim.addressB in k.members)
    ensures k in Clusters(ActiveRows(RolledBack(s, chainId, hashes).rows, chainId))
  {
    var es := ActiveRows(s.rows, chainId);
    var fs := Filter(es, Spared(chainId, hashes));
    var c := k.members.Keys;
    if Doomed(s.rows, OnBlocks(chainId, hashes)) == {} {
      NothingDoomed(s.rows, OnBlocks(chainId, hashes), Reorg);
    }
    RollbackDropsRows(s.rows, chainId, hashes);
    FilterElements(s.rows, ActiveOn(chainId));
    FilterElements(es, Useful);
    FilterTwice(es, Spared(chainId, hashes), Useful);
    FilterTwice(Live(es), Spared(chainId, hashes), RowIn(c));
    FilterElements(Live(es), RowIn(c));
    FilterAll(Filter(Live(es), RowIn(c)), Spared(chainId, hashes));
    ClusterIsSealed(Live(es), k);
    FilterElements(Live(es), Spared(chainId, hashes));
    ClusterSurvivesOutsideChange(es, fs, k);
  }
}
