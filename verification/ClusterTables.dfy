/**
 The cluster and membership tables, a cache of the replay of the active rows, and the queries that
 read them or replay a filtered view on demand.
 */
module ClusterTables {
  import opened Sequences
  import opened Domain
  import opened ReplaySpec
  import opened ReplayPartition
  import opened ReplayConfidence
  import opened EvidenceLog
  import R = Replay

  datatype ClusterRow = ClusterRow(size: nat, representativeConfidence: real)

  datatype MembershipRow = MembershipRow(clusterId: ClusterId, confidence: real)

  type ClusterTable = map<ClusterId, ClusterRow>
  type MembershipTable = map<string, MembershipRow>

  // ---------- what the tables should hold ----------

  ghost function ClusterTableOf(es: seq<MergeEvidence>): ClusterTable {
    map id | id in (set k | k in Clusters(es) :: k.id) ::
      var k := ClusterAt(Live(es), id.anchor); ClusterRow(k.size, k.representative)
  }

  ghost function MembershipTableOf(es: seq<MergeEvidence>): MembershipTable {
    map x | x in Elements(FirstSeen(Live(es))) ::
      MembershipRow(Derived(Anchor(Live(es), x)), Confidence(Live(es), x))
  }

  /** Where a replay of es places an address. */
  ghost function Placement(es: seq<MergeEvidence>, x: string): Option<MembershipRow> {
    if x in MembershipTableOf(es) then Some(MembershipTableOf(es)[x]) else None
  }

  /** The partition of a table that belongs to one chain. */
  function PartOf<K, V>(table: map<string, map<K, V>>, chainId: string): map<K, V> {
    if chainId in table then table[chainId] else map[]
  }

  ghost predicate TablesAgree(rows: seq<MergeEvidence>, clusters: map<string, ClusterTable>,
                              membership: map<string, MembershipTable>, chainId: string)
  {
    PartOf(clusters, chainId) == ClusterTableOf(ActiveRows(rows, chainId)) &&
    PartOf(membership, chainId) == MembershipTableOf(ActiveRows(rows, chainId))
  }

  /** Placement reads a cluster off the replay: the identifier of the cluster that holds x, and x's
      confidence there. */
  lemma PlacementReadsCluster(es: seq<MergeEvidence>, x: string)
    ensures Placement(es, x).Some? <==> Touched(es, x)
    ensures forall k :: k in Clusters(es) && x in k.members ==> Placement(es, x) == Some(MembershipRow(k.id, k.members[x]))
  {
    TouchedIffSeen(es, x);
    forall k | k in Clusters(es) && x in k.members
      ensures Placement(es, x) == Some(MembershipRow(k.id, k.members[x]))
    {
      ClusterShape(Live(es), k);
      assert x in Elements(FirstSeen(Live(es)));
    }
  }

  /** Two placements name the same cluster exactly when a chain of useful rows joins the addresses. */
  lemma SamePlacementIffTogether(es: seq<MergeEvidence>, x: string, y: string)
    ensures Placement(es, x).Some? && Placement(es, y).Some? && Placement(es, x).value.clusterId == Placement(es, y).value.clusterId
            <==> Together(es, x, y)
  {
    TogetherIffJoined(es, x, y);
    if x in FirstSeen(Live(es)) && y in FirstSeen(Live(es)) {
      AnchorFacts(Live(es), x);
    }
  }

  // ---------- from results to table rows ----------

  lemma {:induction false} MemberMapEntry(ms: seq<R.Member>, i: nat)
    requires i < |ms|
    requires forall j, k :: 0 <= j < k < |ms| ==> ms[j].address != ms[k].address
    ensures ms[i].address in R.MemberMap(ms) && R.MemberMap(ms)[ms[i].address] == ms[i].confidence
  {
    if i < |ms| - 1 {
      MemberMapEntry(Init(ms), i);
    }
  }

  lemma {:induction false} MemberMapKeys(ms: seq<R.Member>, x: string)
    requires x in R.MemberMap(ms)
    ensures exists i :: 0 <= i < |ms| && ms[i].address == x
  {
    if ms != [] && x != Last(ms).address {
      MemberMapKeys(Init(ms), x);
      var i :| 0 <= i < |Init(ms)| && Init(ms)[i].address == x;
      assert ms[i].address == x;
    }
  }

  /** results lists the clusters of es, each once and each member once. */
  ghost predicate Reports(results: seq<R.Result>, es: seq<MergeEvidence>) {
    (set r | r in results :: R.View(r)) == Clusters(es) &&
    (forall i, j :: 0 <= i < j < |results| ==> results[i].anchorAddress != results[j].anchorAddress) &&
    forall r :: r in results ==> forall j, k :: 0 <= j < k < |r.members| ==> r.members[j].address != r.members[k].address
  }

  lemma ReportedCluster(results: seq<R.Result>, es: seq<MergeEvidence>, r: R.Result)
    requires Reports(results, es) && r in results
    ensures R.View(r) in Clusters(es) && R.View(r) == ClusterAt(Live(es), r.anchorAddress)
    ensures r.clusterId == Derived(r.anchorAddress)
  {
    assert R.View(r) in (set q | q in results :: R.View(q));
    ClusterShape(Live(es), R.View(r));
  }

  /** Each listed member carries the placement of its address. */
  lemma ReportedMember(results: seq<R.Result>, es: seq<MergeEvidence>, r: R.Result, i: nat)
    requires Reports(results, es) && r in results && i < |r.members|
    ensures Placement(es, r.members[i].address) == Some(MembershipRow(r.clusterId, r.members[i].confidence))
  {
    ReportedCluster(results, es, r);
    MemberMapEntry(r.members, i);
    PlacementReadsCluster(es, r.members[i].address);
  }

  /** Every placed address is listed. */
  lemma PlacedIsReported(results: seq<R.Result>, es: seq<MergeEvidence>, x: string)
    requires Reports(results, es)
    ensures Placement(es, x).Some? ==>
              exists a, b :: 0 <= a < |results| && 0 <= b < |results[a].members| && results[a].members[b].address == x
  {
    if Placement(es, x).Some? {
      ClusterOfMember(Live(es), x);
      var a := ReportOf(results, es, ClusterAt(Live(es), Anchor(Live(es), x)));
      MemberMapKeys(results[a].members, x);
    }
  }

  lemma ReportOf(results: seq<R.Result>, es: seq<MergeEvidence>, k: Cluster) returns (a: nat)
    requires Reports(results, es) && k in Clusters(es)
    ensures a < |results| && R.View(results[a]) == k
  {
    assert k in (set q | q in results :: R.View(q));
    var r :| r in results && R.View(r) == k;
    a :| 0 <= a < |results| && results[a] == r;
  }

  /** table holds one row for each of the results. */
  ghost predicate Tabulates(table: ClusterTable, results: seq<R.Result>) {
    (forall id :: id in table ==> exists r :: r in results && r.clusterId == id) &&
    forall r :: r in results ==>
      r.clusterId in table && table[r.clusterId] == ClusterRow(r.size, r.representativeConfidence)
  }

  lemma TabulatesOneMore(table: ClusterTable, results: seq<R.Result>, r: R.Result)
    requires Tabulates(table, results) && r.clusterId !in table
    ensures Tabulates(table[r.clusterId := ClusterRow(r.size, r.representativeConfidence)], results + [r])
  {
    var table' := table[r.clusterId := ClusterRow(r.size, r.representativeConfidence)];
    forall id | id in table'
      ensures exists q :: q in results + [r] && q.clusterId == id
    {
      if id == r.clusterId {
        assert r in results + [r];
      } else {
        var q :| q in results && q.clusterId == id;
        assert q in results + [r];
      }
    }
  }

  lemma FreshIdentifier(results: seq<R.Result>, es: seq<MergeEvidence>, i: nat, table: ClusterTable)
    requires Reports(results, es) && i < |results| && Tabulates(table, results[..i])
    ensures results[i].clusterId !in table
  {
    ReportedCluster(results, es, results[i]);
    if results[i].clusterId in table {
      var q :| q in results[..i] && q.clusterId == results[i].clusterId;
      ReportedCluster(results, es, q);
    }
  }

  /** Inserts one cluster row per result; the identifiers never collide. */
  method InsertClusters(results: seq<R.Result>, ghost es: seq<MergeEvidence>) returns (table: ClusterTable)
    requires Reports(results, es)
    ensures table == ClusterTableOf(es)
  {
    table := map[];
    for i := 0 to |results|
      invariant Tabulates(table, results[..i])
    {
      var r := results[i];
      FreshIdentifier(results, es, i, table);
      TabulatesOneMore(table, results[..i], r);
      assert results[..i + 1] == results[..i] + [r];
      table := table[r.clusterId := ClusterRow(r.size, r.representativeConfidence)];
    }
    assert results[..|results|] == results;
    TableIsComplete(results, es, table);
  }

  lemma TableIsComplete(results: seq<R.Result>, es: seq<MergeEvidence>, table: ClusterTable)
    requires Reports(results, es) && Tabulates(table, results)
    ensures table == ClusterTableOf(es)
  {
    forall id | id in table
      ensures id in ClusterTableOf(es) && table[id] == ClusterTableOf(es)[id]
    {
      var r :| r in results && r.clusterId == id;
      ReportedCluster(results, es, r);
    }
    forall id | id in ClusterTableOf(es)
      ensures id in table
    {
      var k :| k in Clusters(es) && k.id == id;
      var j := ReportOf(results, es, k);
      assert results[j] in results;
    }
  }

  ghost predicate Copied(table: MembershipTable, es: seq<MergeEvidence>) {
    forall x :: x in table ==> Placement(es, x) == Some(table[x])
  }

  ghost predicate Holds(table: MembershipTable, r: R.Result, m: nat) {
    m <= |r.members| && forall b :: 0 <= b < m ==> r.members[b].address in table
  }

  lemma CopiedNext(table: MembershipTable, es: seq<MergeEvidence>, r: R.Result, m: nat, row: MembershipRow)
    requires Copied(table, es) && Holds(table, r, m) && m < |r.members|
    requires Placement(es, r.members[m].address) == Some(row)
    ensures Copied(table[r.members[m].address := row], es) && Holds(table[r.members[m].address := row], r, m + 1)
  {
  }

  method CopyResult(r: R.Result, table: MembershipTable, ghost results: seq<R.Result>, ghost es: seq<MergeEvidence>)
    returns (table': MembershipTable)
    requires Reports(results, es) && r in results && Copied(table, es)
    ensures Copied(table', es) && Holds(table', r, |r.members|) && table.Keys <= table'.Keys
  {
    table' := table;
    for m := 0 to |r.members|
      invariant Copied(table', es) && Holds(table', r, m) && table.Keys <= table'.Keys
    {
      ReportedMember(results, es, r, m);
      CopiedNext(table', es, r, m, MembershipRow(r.clusterId, r.members[m].confidence));
      table' := table'[r.members[m].address := MembershipRow(r.clusterId, r.members[m].confidence)];
    }
  }

  /** Copies every member into the membership table. */
  method CopyMembers(results: seq<R.Result>, ghost es: seq<MergeEvidence>) returns (table: MembershipTable)
    requires Reports(results, es)
    ensures table == MembershipTableOf(es)
  {
    table := map[];
    for i := 0 to |results|
      invariant Copied(table, es)
      invariant forall a :: 0 <= a < i ==> Holds(table, results[a], |results[a].members|)
    {
      ghost var before := table;
      table := CopyResult(results[i], table, results, es);
      forall a | 0 <= a < i
        ensures Holds(table, results[a], |results[a].members|)
      {
        assert Holds(before, results[a], |results[a].members|);
      }
    }
    forall x | x in MembershipTableOf(es)
      ensures x in table
    {
      PlacedIsReported(results, es, x);
    }
    assert forall x :: x in table ==> Placement(es, x).Some?;
  }

  // ---------- the store ----------

  /** The lower confidence of two placements in one cluster. */
  function Shared(a: Option<MembershipRow>, b: Option<MembershipRow>): Option<real> {
    if a.Some? && b.Some? && a.value.clusterId == b.value.clusterId
    then Some(if a.value.confidence < b.value.confidence then a.value.confidence else b.value.confidence)
    else None
  }

  /** confidence is the lower of the confidences of a and b in a cluster they share, if they do. */
  ghost predicate SharedInView(es: seq<MergeEvidence>, a: string, b: string, confidence: Option<real>) {
    (confidence.Some? <==> Together(es, a, b)) &&
    forall k :: k in Clusters(es) && a in k.members && b in k.members ==>
      confidence == Some(if k.members[a] < k.members[b] then k.members[a] else k.members[b])
  }

  lemma SharedReadsView(es: seq<MergeEvidence>, a: string, b: string)
    ensures SharedInView(es, a, b, Shared(Placement(es, a), Placement(es, b)))
  {
    PlacementReadsCluster(es, a);
    PlacementReadsCluster(es, b);
    SamePlacementIffTogether(es, a, b);
  }

  /** minConfidence at or below this reads the tables instead of replaying. */
  const THRESHOLD_EPSILON: real := 0.000000001

  class ClusterStore {
    const evidence: EvidenceStore
    var clusters: map<string, ClusterTable>
    var membership: map<string, MembershipTable>

    constructor (evidence: EvidenceStore)
      ensures this.evidence == evidence && clusters == map[] && membership == map[]
    {
      this.evidence := evidence;
      clusters, membership := map[], map[];
    }

    ghost predicate Agrees(chainId: string)
      reads this, evidence
    {
      TablesAgree(evidence.rows, clusters, membership, chainId)
    }

    /** Replays the active rows of the chain and replaces its partitions in one transaction, which may
        take effect even where the commit reports failure. */
    method RebuildFromEvidence(chainId: string) returns (r: Outcome<()>)
      modifies this
      ensures (clusters == old(clusters)[chainId := ClusterTableOf(ActiveRows(evidence.rows, chainId))] &&
               membership == old(membership)[chainId := MembershipTableOf(ActiveRows(evidence.rows, chainId))]) ||
              (r.Err? && clusters == old(clusters) && membership == old(membership))
    {
      var active := evidence.ScanActive(chainId);
      if active.Err? {
        return Err;
      }
      var results := R.Replay(active.value);
      var clusterRows := InsertClusters(results, active.value);
      var membershipRows := CopyMembers(results, active.value);
      var commitFails, replyLost := *, *;
      if commitFails {
        return Err;
      }
      clusters := clusters[chainId := clusterRows];
      membership := membership[chainId := membershipRows];
      return if replyLost then Err else Ok(());
    }

    /** The rows that a query at minConfidence answers for. */
    ghost function Viewed(chainId: string, minConfidence: real): seq<MergeEvidence>
      reads evidence
    {
      var active := ActiveRows(evidence.rows, chainId);
      if minConfidence <= THRESHOLD_EPSILON then active else Above(active, minConfidence)
    }

    method ThresholdView(chainId: string, minConfidence: real) returns (r: Outcome<seq<R.Result>>)
      ensures r.Ok? ==> Reports(r.value, Above(ActiveRows(evidence.rows, chainId), minConfidence))
    {
      var active := evidence.ScanActive(chainId);
      if active.Err? {
        return Err;
      }
      var filtered := [];
      for i := 0 to |active.value|
        invariant filtered == Above(active.value[..i], minConfidence)
      {
        var e := active.value[i];
        assert active.value[..i + 1] == active.value[..i] + [e];
        InitOfAppend(active.value[..i], e);
        if e.claim.confidence >= minConfidence {
          filtered := filtered + [e];
        }
      }
      assert active.value[..|active.value|] == active.value;
      var results := R.Replay(filtered);
      return Ok(results);
    }

    /** What the tables, or at a higher threshold a fresh replay, say of an address. */
    ghost function Answer(chainId: string, address: string, minConfidence: real): Option<MembershipRow>
      reads this, evidence
    {
      var part := PartOf(membership, chainId);
      if minConfidence <= THRESHOLD_EPSILON then (if address in part then Some(part[address]) else None)
      else Placement(Above(ActiveRows(evidence.rows, chainId), minConfidence), address)
    }

    /** The cluster of an address: from the tables at threshold 0, else from a fresh replay of the
        rows at or above the threshold. The tables are read as they are; where they agree with the
        log, the answer is the address's placement in the view. */
    method ClusterOf(chainId: string, address: string, minConfidence: real) returns (r: Outcome<Option<MembershipRow>>)
      ensures r.Ok? ==> r.value == Answer(chainId, address, minConfidence)
      ensures r.Ok? && (minConfidence <= THRESHOLD_EPSILON ==> Agrees(chainId)) ==>
                r.value == Placement(Viewed(chainId, minConfidence), address)
    {
      if minConfidence <= THRESHOLD_EPSILON {
        var dbFails := *;
        if dbFails {
          return Err;
        }
        var part := PartOf(membership, chainId);
        return Ok(if address in part then Some(part[address]) else None);
      }
      var view := ThresholdView(chainId, minConfidence);
      if view.Err? {
        return Err;
      }
      ghost var es := Viewed(chainId, minConfidence);
      var results := view.value;
      for i := 0 to |results|
        invariant forall a, b :: 0 <= a < i && 0 <= b < |results[a].members| ==> results[a].members[b].address != address
      {
        var c := results[i];
        assert c in results;
        for m := 0 to |c.members|
          invariant forall b :: 0 <= b < m ==> c.members[b].address != address
        {
          if c.members[m].address == address {
            ReportedMember(results, es, c, m);
            return Ok(Some(MembershipRow(c.clusterId, c.members[m].confidence)));
          }
        }
      }
      PlacedIsReported(results, es, address);
      return Ok(None);
    }

    /** Whether two addresses have the same cluster, and the lower of their confidences. Where the
        tables agree with the log, this is whether they share a cluster of the view. */
    method SameCluster(chainId: string, a: string, b: string, minConfidence: real) returns (r: Outcome<Option<real>>)
      ensures r.Ok? ==> r.value == Shared(Answer(chainId, a, minConfidence), Answer(chainId, b, minConfidence))
      ensures r.Ok? && (minConfidence <= THRESHOLD_EPSILON ==> Agrees(chainId)) ==>
                SharedInView(Viewed(chainId, minConfidence), a, b, r.value)
    {
      SharedReadsView(Viewed(chainId, minConfidence), a, b);
      var ca := ClusterOf(chainId, a, minConfidence);
      if ca.Err? {
        return Err;
      }
      if ca.value.None? {
        return Ok(None);
      }
      var cb := ClusterOf(chainId, b, minConfidence);
      if cb.Err? {
        return Err;
      }
      if cb.value.None? || ca.value.value.clusterId != cb.value.value.clusterId {
        return Ok(None);
      }
      var confA, confB := ca.value.value.confidence, cb.value.value.confidence;
      return Ok(Some(if confA < confB then confA else confB));
    }
  }
}
