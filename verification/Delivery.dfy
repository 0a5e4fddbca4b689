/**
 What a reader of the log believes when messages may be delivered again after a crash: once it has
 caught up, repeated delivery leaves it believing what the log itself says.
 */
module Delivery {
  import opened Sequences
  import opened IndexerMachine

  function ChainOf(m: Message): string {
    match m
    case DeltaMessage(d) => d.chainId
    case ReorgMessage(chainId, _) => chainId
  }

  function ForChain(chainId: string): Message -> bool {
    (m: Message) => ChainOf(m) == chainId
  }

  /** The message settles whether the block is believed. */
  predicate Settles(m: Message, chainId: string, hash: string) {
    ChainOf(m) == chainId &&
    match m
    case DeltaMessage(d) => d.blockHash == hash
    case ReorgMessage(_, rolledBack) => hash in rolledBack
  }

  /** The last message that settles a block decides. */
  lemma FoldNext(log: seq<Message>, m: Message, chainId: string, hash: string)
    ensures hash in Fold(log + [m], chainId) <==>
            if Settles(m, chainId, hash) then m.DeltaMessage? else hash in Fold(log, chainId)
  {
    InitOfAppend(log, m);
  }

  /** Other chains' messages change nothing. */
  lemma {:induction false} FoldOfChain(log: seq<Message>, chainId: string)
    ensures Fold(Filter(log, ForChain(chainId)), chainId) == Fold(log, chainId)
  {
    if log != [] {
      FoldOfChain(Init(log), chainId);
      if ForChain(chainId)(Last(log)) {
        InitOfAppend(Filter(Init(log), ForChain(chainId)), Last(log));
      }
    }
  }

  ghost predicate Silent(log: seq<Message>, low: int, high: int, chainId: string, hash: string) {
    forall i :: 0 <= low <= i < high <= |log| ==> !Settles(log[i], chainId, hash)
  }

  lemma {:induction false} SilentChangesNothing(log: seq<Message>, low: nat, high: nat, chainId: string, hash: string)
    requires low <= high <= |log| && Silent(log, low, high, chainId, hash)
    ensures hash in Fold(log[..high], chainId) <==> hash in Fold(log[..low], chainId)
    decreases high
  {
    if low < high {
      assert log[..high] == log[..high - 1] + [log[high - 1]];
      FoldNext(log[..high - 1], log[high - 1], chainId, hash);
      SilentChangesNothing(log, low, high - 1, chainId, hash);
    }
  }

  /** got is the log read from its start, at these offsets, where reading may fall back to an earlier
      offset at any time but never skips one. */
  ghost predicate Delivered(log: seq<Message>, got: seq<Message>, offsets: seq<nat>) {
    |offsets| == |got| &&
    (forall i :: 0 <= i < |got| ==> offsets[i] < |log| && got[i] == log[offsets[i]]) &&
    (got != [] ==> offsets[0] == 0) &&
    (forall i :: 0 < i < |got| ==> offsets[i] <= offsets[i - 1] + 1)
  }

  /** How much of the log has been read at least once. */
  ghost function Reached(offsets: seq<nat>): nat {
    if offsets == [] then 0
    else if Reached(Init(offsets)) <= Last(offsets) then Last(offsets) + 1 else Reached(Init(offsets))
  }

  /** The position after the last message read. */
  ghost function Position(offsets: seq<nat>): nat {
    if offsets == [] then 0 else Last(offsets) + 1
  }

  lemma {:induction false} ReachedBounds(log: seq<Message>, got: seq<Message>, offsets: seq<nat>)
    requires Delivered(log, got, offsets)
    ensures Position(offsets) <= Reached(offsets) <= |log|
  {
    if got != [] {
      ReachedBounds(log, Init(got), Init(offsets));
    }
  }

  /** Reading one more message either repeats an offset or reaches the next one. */
  lemma DeliveredNext(log: seq<Message>, got: seq<Message>, offsets: seq<nat>)
    requires Delivered(log, got, offsets) && got != []
    ensures Delivered(log, Init(got), Init(offsets))
    ensures Last(offsets) <= Position(Init(offsets)) && Last(offsets) < |log| && Last(got) == log[Last(offsets)]
  {
  }

  lemma SettledByLast(log: seq<Message>, q: nat, high: nat, chainId: string, hash: string)
    requires q < high <= |log| && Silent(log, q + 1, high, chainId, hash)
    ensures Settles(log[q], chainId, hash) ==> (hash in Fold(log[..high], chainId) <==> log[q].DeltaMessage?)
  {
    assert log[..q + 1] == log[..q] + [log[q]];
    FoldNext(log[..q], log[q], chainId, hash);
    SilentChangesNothing(log, q + 1, high, chainId, hash);
  }

  /** A block that the rest of what has been read before leaves alone is believed exactly if the log
      says so. */
  lemma {:induction false} BelievedAsInLog(log: seq<Message>, got: seq<Message>, offsets: seq<nat>, chainId: string, hash: string)
    requires Delivered(log, got, offsets) && Reached(offsets) <= |log|
    requires Silent(log, Position(offsets), Reached(offsets), chainId, hash)
    ensures hash in Fold(got, chainId) <==> hash in Fold(log[..Reached(offsets)], chainId)
  {
    if got != [] {
      var q, high, before := Last(offsets), Reached(offsets), Reached(Init(offsets));
      DeliveredNext(log, got, offsets);
      FoldNext(Init(got), log[q], chainId, hash);
      assert Init(got) + [log[q]] == got;
      SettledByLast(log, q, high, chainId, hash);
      if !Settles(log[q], chainId, hash) {
        assert Silent(log, q, high, chainId, hash);
        BelievedAsInLog(log, Init(got), Init(offsets), chainId, hash);
        SilentChangesNothing(log, before, high, chainId, hash);
      }
    }
  }

  /** At-least-once delivery is exact once caught up, however often reading fell back. */
  lemma CaughtUpBelievesTheLog(log: seq<Message>, got: seq<Message>, offsets: seq<nat>, chainId: string)
    requires Delivered(log, got, offsets) && Position(offsets) == |log|
    ensures Fold(got, chainId) == Fold(log, chainId)
  {
    ReachedBounds(log, got, offsets);
    assert log[..|log|] == log;
    forall hash
      ensures hash in Fold(got, chainId) <==> hash in Fold(log, chainId)
    {
      BelievedAsInLog(log, got, offsets, chainId, hash);
    }
  }
}
