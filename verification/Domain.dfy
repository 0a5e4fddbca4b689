/**
 The rows and messages that the two services exchange.
 */
module Domain {
  import opened Sequences

  datatype Status = Active | Invalidated

  datatype Reason = Reorg | ManualCorrection

  /** A merge proposed by a heuristic. */
  datatype MergeCandidate = MergeCandidate(
    chainId: string,
    addressA: string,
    addressB: string,
    heuristicKey: string,
    sourceTxId: Option<string>,
    sourceBlockHash: Option<string>,
    sourceBlockHeight: Option<int>,
    confidence: real)

  /** One row of merge_evidence. */
  datatype MergeEvidence = MergeEvidence(
    opId: int,
    claim: MergeCandidate,
    status: Status,
    invalidatedReason: Option<Reason>)

  /** A signed movement of value on one address. */
  datatype BalanceDelta = BalanceDelta(
    chainId: string,
    txId: string,
    deltaIndex: int,
    address: string,
    amount: Option<int>,
    blockHeight: int,
    blockHash: string)
}
