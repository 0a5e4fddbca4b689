/**
 The log block by block: which blocks stand in it, that these are the stored ones, and that a flat log
 can be read as blocks in one way only.
 */
module BlockLog {
  import opened Sequences
  import opened Domain
  import opened Convergence
  import opened IndexerMachine

  /** The log block by block: the deltas of one published block, with the claims they led to where these
      are known, or a rollback. */
  datatype Entry = Add(hash: string, deltas: seq<BalanceDelta>, claims: seq<MergeCandidate>) | Remove(hashes: seq<string>)

  function Outside(hashes: seq<string>): Entry -> bool {
    (e: Entry) => e.Add? ==> e.hash !in hashes
  }

  /** The blocks that are added and not removed afterwards, in order. */
  ghost function Standing(es: seq<Entry>): seq<Entry> {
    if es == [] then []
    else
      match Last(es)
      case Add(_, _, _) => Standing(Init(es)) + [Last(es)]
      case Remove(hashes) => Filter(Standing(Init(es)), Outside(hashes))
  }

  lemma {:induction false} StandingAreAdds(es: seq<Entry>)
    ensures forall e :: e in Standing(es) ==> e.Add? && e in es
  {
    if es != [] {
      StandingAreAdds(Init(es));
      assert es == Init(es) + [Last(es)];
      if Last(es).Remove? {
        FilterElements(Standing(Init(es)), Outside(Last(es).hashes));
      }
    }
  }

  function BareOne(e: Entry): Entry {
    if e.Add? then e.(claims := []) else e
  }

  /** The entries without their claims. */
  function Bare(es: seq<Entry>): (r: seq<Entry>)
    ensures |r| == |es|
  {
    if es == [] then [] else Bare(Init(es)) + [BareOne(Last(es))]
  }

  lemma {:induction false} BareFilter(es: seq<Entry>, keep: Entry -> bool)
    requires forall e: Entry :: keep(BareOne(e)) == keep(e)
    ensures Bare(Filter(es, keep)) == Filter(Bare(es), keep)
  {
    if es != [] {
      BareFilter(Init(es), keep);
      InitOfAppend(Bare(Init(es)), BareOne(Last(es)));
      if keep(Last(es)) {
        InitOfAppend(Filter(Init(es), keep), Last(es));
      }
    }
  }

  /** What stands does not depend on the claims. */
  lemma {:induction false} BareStandsAlike(es: seq<Entry>)
    ensures Standing(Bare(es)) == Bare(Standing(es))
  {
    if es != [] {
      BareStandsAlike(Init(es));
      InitOfAppend(Bare(Init(es)), BareOne(Last(es)));
      match Last(es)
      case Add(_, _, _) => InitOfAppend(Standing(Init(es)), Last(es));
      case Remove(hashes) => BareFilter(Standing(Init(es)), Outside(hashes));
    }
  }

  // ---------- what the indexer wrote ----------

  /** What an action writes. */
  ghost function Writes(s: State, a: Action): seq<Entry>
    requires Enabled(s, a)
  {
    match a
    case Publish(_, block, deltas) => [Add(block.hash, deltas, [])]
    case Announce => [Remove(s.phase.rolledBack)]
    case _ => []
  }

  ghost function Written(s: State, acts: seq<Action>): seq<Entry>
    requires Legal(s, acts)
  {
    if acts == [] then [] else Written(s, Init(acts)) + Writes(After(s, Init(acts)), Last(acts))
  }

  /** The entries are the stored blocks, in ascending height. */
  ghost predicate ByHeight(standing: seq<Entry>, blocks: Blocks) {
    (forall i :: 0 <= i < |standing| ==> standing[i].Add? && standing[i].hash in blocks) &&
    (forall i, j :: 0 <= i < j < |standing| ==> Higher(standing[i], standing[j], blocks)) &&
    (forall h :: h in blocks ==> Named(standing, h))
  }

  ghost predicate Higher(e: Entry, f: Entry, blocks: Blocks) {
    e.Add? && f.Add? && e.hash in blocks && f.hash in blocks && blocks[e.hash].height < blocks[f.hash].height
  }

  ghost predicate Named(standing: seq<Entry>, hash: string) {
    exists i :: 0 <= i < |standing| && standing[i].Add? && standing[i].hash == hash
  }

  ghost predicate InStep(s: State, standing: seq<Entry>, header: string -> StoredBlock) {
    Commits(s.blocks, header) &&
    match s.phase
    case Published(height, block) =>
      standing != [] && Last(standing).Add? && Last(standing).hash == block.hash && ByHeight(Init(standing), s.blocks) &&
      header(block.hash) == StoredBlock(height, block.parentHash) && forall h :: h in s.blocks ==> s.blocks[h].height < height
    case Announced(_, ancestor) => ByHeight(standing, Upto(s.blocks, ancestor))
    case _ => ByHeight(standing, s.blocks)
  }

  lemma {:induction false} FilterKeepsHeights(standing: seq<Entry>, blocks: Blocks, keep: Entry -> bool)
    requires forall i, j :: 0 <= i < j < |standing| ==> Higher(standing[i], standing[j], blocks)
    ensures forall i, j :: 0 <= i < j < |Filter(standing, keep)| ==> Higher(Filter(standing, keep)[i], Filter(standing, keep)[j], blocks)
  {
    if standing != [] {
      var init := Init(standing);
      assert forall i, j :: 0 <= i < j < |init| ==> init[i] == standing[i] && init[j] == standing[j];
      FilterKeepsHeights(init, blocks, keep);
      FilterElements(init, keep);
      if keep(Last(standing)) {
        var kept := Filter(init, keep);
        forall i | 0 <= i < |kept|
          ensures Higher(kept[i], Last(standing), blocks)
        {
          assert kept[i] in kept;
          var k :| 0 <= k < |init| && init[k] == kept[i];
          assert Higher(standing[k], standing[|init|], blocks);
        }
      }
    }
  }

  lemma KeptIsLow(standing: seq<Entry>, blocks: Blocks, ancestor: int, rolledBack: seq<string>, e: Entry)
    requires ByHeight(standing, blocks) && Elements(rolledBack) == blocks.Keys - Upto(blocks, ancestor).Keys
    requires e in standing
    ensures e.Add? && (Outside(rolledBack)(e) <==> e.hash in Upto(blocks, ancestor))
  {
    var k :| 0 <= k < |standing| && standing[k] == e;
    assert standing[k].Add? && standing[k].hash in blocks;
    assert e.hash in rolledBack <==> e.hash in Elements(rolledBack);
  }

  lemma NamedMeans(standing: seq<Entry>, hash: string)
    ensures Named(standing, hash) <==> exists e :: e in standing && e.Add? && e.hash == hash
  {
    if e :| e in standing && e.Add? && e.hash == hash {
      var i :| 0 <= i < |standing| && standing[i] == e;
      assert standing[i].hash == hash;
    }
  }

  lemma LowerBlocks(standing: seq<Entry>, blocks: Blocks, low: Blocks)
    requires forall i, j :: 0 <= i < j < |standing| ==> Higher(standing[i], standing[j], blocks)
    requires forall i :: 0 <= i < |standing| ==> standing[i].Add? && standing[i].hash in low
    requires forall h :: h in low ==> h in blocks && low[h] == blocks[h]
    ensures forall i, j :: 0 <= i < j < |standing| ==> Higher(standing[i], standing[j], low)
  {
    forall i, j | 0 <= i < j < |standing|
      ensures Higher(standing[i], standing[j], low)
    {
      assert Higher(standing[i], standing[j], blocks);
    }
  }

  /** Removing the blocks above a height leaves those at or below it, in order. */
  lemma CutKeepsHeights(standing: seq<Entry>, blocks: Blocks, ancestor: int, rolledBack: seq<string>)
    requires ByHeight(standing, blocks) && Elements(rolledBack) == blocks.Keys - Upto(blocks, ancestor).Keys
    ensures ByHeight(Filter(standing, Outside(rolledBack)), Upto(blocks, ancestor))
  {
    var kept, low := Filter(standing, Outside(rolledBack)), Upto(blocks, ancestor);
    FilterElements(standing, Outside(rolledBack));
    forall i | 0 <= i < |kept|
      ensures kept[i].Add? && kept[i].hash in low
    {
      assert kept[i] in kept;
      KeptIsLow(standing, blocks, ancestor, rolledBack, kept[i]);
    }
    FilterKeepsHeights(standing, blocks, Outside(rolledBack));
    LowerBlocks(kept, blocks, low);
    forall h | h in low
      ensures Named(kept, h)
    {
      NamedMeans(standing, h);
      var e :| e in standing && e.Add? && e.hash == h;
      KeptIsLow(standing, blocks, ancestor, rolledBack, e);
      NamedMeans(kept, h);
    }
  }

  lemma PersistKeepsHeights(standing: seq<Entry>, blocks: Blocks, hash: string, b: StoredBlock)
    requires standing != [] && Last(standing).Add? && Last(standing).hash == hash && ByHeight(Init(standing), blocks)
    requires hash !in blocks && forall h :: h in blocks ==> blocks[h].height < b.height
    ensures ByHeight(standing, blocks[hash := b])
  {
    var init, blocks' := Init(standing), blocks[hash := b];
    forall i, j | 0 <= i < j < |standing|
      ensures Higher(standing[i], standing[j], blocks')
    {
      assert standing[i] == init[i];
      assert j < |init| ==> Higher(init[i], init[j], blocks);
    }
    forall h | h in blocks'
      ensures Named(standing, h)
    {
      if h == hash {
        assert standing[|standing| - 1].hash == h;
      } else {
        assert Named(init, h);
        var i :| 0 <= i < |init| && init[i].Add? && init[i].hash == h;
        assert standing[i].hash == h;
      }
    }
  }

  lemma StandingNext(es: seq<Entry>, e: Entry)
    ensures Standing(es + [e]) == if e.Add? then Standing(es) + [e] else Filter(Standing(es), Outside(e.hashes))
  {
    InitOfAppend(es, e);
  }

  lemma StepStaysInStep(s: State, a: Action, written: seq<Entry>, header: string -> StoredBlock)
    requires Safe(s) && Enabled(s, a) && !a.Stop? && !a.PublishPart? && Honest(a, header)
    requires InStep(s, Standing(written), header)
    ensures InStep(Apply(s, a), Standing(written + Writes(s, a)), header)
  {
    assert Writes(s, a) == [] ==> written + Writes(s, a) == written;
    match a
    case Publish(height, block, deltas) =>
      StandingNext(written, Add(block.hash, deltas, []));
      InitOfAppend(Standing(written), Add(block.hash, deltas, []));
    case Persist =>
      PersistKeepsHeights(Standing(written), s.blocks, s.phase.block.hash, StoredBlock(s.phase.height, s.phase.block.parentHash));
    case Announce =>
      StandingNext(written, Remove(s.phase.rolledBack));
      RolledBackIsExact(s.blocks, s.cursor.value, s.phase.rolledBack, s.phase.ancestor);
      CutKeepsHeights(Standing(written), s.blocks, s.phase.ancestor, s.phase.rolledBack);
    case _ =>
  }

  lemma {:induction false} RunStaysInStep(chainId: string, acts: seq<Action>, header: string -> StoredBlock)
    requires Legal(Start(chainId), acts) && Unbroken(acts) && forall a :: a in acts ==> Honest(a, header)
    ensures InStep(After(Start(chainId), acts), Standing(Written(Start(chainId), acts)), header)
  {
    if acts != [] {
      InitElements(acts);
      RunStaysInStep(chainId, Init(acts), header);
      EveryRunIsSafe(Start(chainId), Init(acts));
      StepStaysInStep(After(Start(chainId), Init(acts)), Last(acts), Written(Start(chainId), Init(acts)), header);
    }
  }

  /** In a run without failures, at rest, what stands in the log is exactly what is stored, in
      ascending height. */
  lemma StandingIsStored(chainId: string, acts: seq<Action>, header: string -> StoredBlock)
    requires Legal(Start(chainId), acts) && Unbroken(acts) && forall a :: a in acts ==> Honest(a, header)
    requires After(Start(chainId), acts).phase.Idle?
    ensures ByHeight(Standing(Written(Start(chainId), acts)), After(Start(chainId), acts).blocks)
  {
    RunStaysInStep(chainId, acts, header);
  }

  // ---------- one batch per block ----------

  /** The messages that an entry stands for. */
  ghost function Flat(es: seq<Entry>, chainId: string): seq<Message> {
    if es == [] then []
    else
      Flat(Init(es), chainId) +
      match Last(es)
      case Add(_, deltas, _) => Messages(deltas)
      case Remove(hashes) => [ReorgMessage(chainId, hashes)]
  }

  /** Every addition carries some deltas, all of its block. */
  ghost predicate Carrying(es: seq<Entry>, chainId: string) {
    forall e :: e in es && e.Add? ==> e.deltas != [] && Carries(e.deltas, chainId, e.hash)
  }

  /** Never do two additions in a row add one block. */
  ghost predicate Whole(es: seq<Entry>, chainId: string) {
    Carrying(es, chainId) && forall i :: 0 < i < |es| && es[i - 1].Add? && es[i].Add? ==> es[i - 1].hash != es[i].hash
  }

  lemma WholeInit(es: seq<Entry>, chainId: string)
    requires Carrying(es, chainId) && es != []
    ensures Carrying(Init(es), chainId) && (Whole(es, chainId) ==> Whole(Init(es), chainId))
    ensures es[|es| - 1].Add? ==> es[|es| - 1].deltas != [] && Carries(es[|es| - 1].deltas, chainId, es[|es| - 1].hash)
  {
    assert forall e :: e in Init(es) ==> e in es;
    assert forall i :: 0 <= i < |Init(es)| ==> Init(es)[i] == es[i];
    assert es[|es| - 1] in es;
  }

  /** The last message of a flat log tells the kind, and the block, of its last entry. */
  lemma LastMessage(es: seq<Entry>, chainId: string)
    requires Carrying(es, chainId)
    ensures es == [] <==> Flat(es, chainId) == []
    ensures es != [] && Last(es).Remove? ==> Last(Flat(es, chainId)) == ReorgMessage(chainId, Last(es).hashes)
    ensures es != [] && Last(es).Add? ==>
              Last(Flat(es, chainId)).DeltaMessage? && Last(Flat(es, chainId)).delta.blockHash == Last(es).hash
  {
    if es != [] {
      assert es[|es| - 1] in es;
      if Last(es).Add? {
        FlatOfAdd(es, chainId);
        SameBlockOfEntry(es, chainId, |Last(es).deltas| - 1);
        assert Last(Flat(es, chainId)) == DeltaMessage(Last(Last(es).deltas));
      }
    }
  }

  /** Of two ways to cut a sequence in two, the one with the shorter tail has the longer head. */
  lemma ShorterTail<T>(head: seq<T>, tail: seq<T>, head': seq<T>, tail': seq<T>)
    requires head + tail == head' + tail' && tail != [] && |tail| < |tail'|
    ensures head != [] && Last(head) == tail'[|tail'| - |tail| - 1] && Last(tail) == Last(tail')
  {
    var whole, n := head + tail, |head| - 1;
    assert whole[n] == head[n] && whole[n] == tail'[n - |head'|];
    assert whole[|whole| - 1] == Last(tail) && whole[|whole| - 1] == Last(tail');
  }

  lemma FlatOfAdd(es: seq<Entry>, chainId: string)
    requires es != [] && Last(es).Add?
    ensures Flat(es, chainId) == Flat(Init(es), chainId) + Messages(Last(es).deltas)
  {
  }

  /** The last entry before is for the block that its last message names. */
  lemma LastIsOfBlock(es: seq<Entry>, chainId: string, d: BalanceDelta)
    requires Carrying(es, chainId) && Flat(es, chainId) != [] && Last(Flat(es, chainId)) == DeltaMessage(d)
    ensures es != [] && Last(es).Add? && Last(es).hash == d.blockHash
  {
    LastMessage(es, chainId);
  }

  /** The message before the shorter of two tails of one log is of the block of that tail. */
  lemma ShorterIsPreceded(head: seq<Message>, d: seq<BalanceDelta>, hash: string, head': seq<Message>, d': seq<BalanceDelta>,
                          hash': string, chainId: string)
    returns (before: BalanceDelta)
    requires head + Messages(d) == head' + Messages(d') && 0 < |d| < |d'|
    requires Carries(d, chainId, hash) && Carries(d', chainId, hash')
    ensures head != [] && Last(head) == DeltaMessage(before) && before.blockHash == hash
  {
    ShorterTail(head, Messages(d), head', Messages(d'));
    before := d'[|d'| - |d| - 1];
    assert before in d' && Last(d') in d' && Last(d) in d && Last(d) == Last(d');
  }

  /** A last entry with fewer deltas than another reading of the same log would have to be preceded by
      an entry for the same block. */
  lemma ShorterRepeatsBlock(es: seq<Entry>, fs: seq<Entry>, chainId: string)
    requires Carrying(es, chainId) && Carrying(fs, chainId) && es != [] && fs != [] && Last(es).Add? && Last(fs).Add?
    requires Flat(es, chainId) == Flat(fs, chainId) && |Last(es).deltas| < |Last(fs).deltas|
    ensures |es| > 1 && es[|es| - 2].Add? && es[|es| - 2].hash == Last(es).hash
  {
    WholeInit(es, chainId);
    WholeInit(fs, chainId);
    FlatOfAdd(es, chainId);
    FlatOfAdd(fs, chainId);
    var d := ShorterIsPreceded(Flat(Init(es), chainId), Last(es).deltas, Last(es).hash,
                               Flat(Init(fs), chainId), Last(fs).deltas, Last(fs).hash, chainId);
    LastIsOfBlock(Init(es), chainId, d);
    assert Last(Init(es)) == es[|es| - 2];
  }

  lemma SameBlockOfEntry(es: seq<Entry>, chainId: string, i: nat)
    requires Carrying(es, chainId) && es != [] && Last(es).Add? && i < |Last(es).deltas|
    ensures Last(es).deltas[i].blockHash == Last(es).hash
  {
    assert Last(es) in es && Last(es).deltas[i] in Last(es).deltas;
  }

  lemma NotShorter(es: seq<Entry>, fs: seq<Entry>, chainId: string)
    requires Whole(es, chainId) && Whole(fs, chainId) && es != [] && fs != [] && Last(es).Add? && Last(fs).Add?
    requires Flat(es, chainId) == Flat(fs, chainId)
    ensures |Last(es).deltas| >= |Last(fs).deltas|
  {
    if |Last(es).deltas| < |Last(fs).deltas| {
      ShorterRepeatsBlock(es, fs, chainId);
    }
  }

  lemma SameMessages(d: seq<BalanceDelta>, e: seq<BalanceDelta>)
    requires Messages(d) == Messages(e)
    ensures d == e
  {
    forall i | 0 <= i < |d|
      ensures d[i] == e[i]
    {
      assert Messages(d)[i] == Messages(e)[i];
    }
  }

  lemma SameCut<T>(a: seq<T>, d: seq<T>, b: seq<T>, e: seq<T>)
    requires a + d == b + e && |d| == |e|
    ensures a == b && d == e
  {
    assert a == (a + d)[..|a|] && b == (b + e)[..|b|];
    assert d == (a + d)[|a|..] && e == (b + e)[|b|..];
  }

  lemma SameLastBlock(es: seq<Entry>, fs: seq<Entry>, chainId: string)
    requires Whole(es, chainId) && Whole(fs, chainId) && es != [] && fs != [] && Last(es).Add? && Last(fs).Add?
    requires Flat(es, chainId) == Flat(fs, chainId)
    ensures BareOne(Last(es)) == BareOne(Last(fs)) && Flat(Init(es), chainId) == Flat(Init(fs), chainId)
  {
    LastMessage(es, chainId);
    LastMessage(fs, chainId);
    NotShorter(es, fs, chainId);
    NotShorter(fs, es, chainId);
    SameCut(Flat(Init(es), chainId), Messages(Last(es).deltas), Flat(Init(fs), chainId), Messages(Last(fs).deltas));
    SameMessages(Last(es).deltas, Last(fs).deltas);
  }

  lemma SameLastRollback(es: seq<Entry>, fs: seq<Entry>, chainId: string)
    requires Carrying(es, chainId) && Carrying(fs, chainId) && es != [] && fs != [] && Last(es).Remove? && Last(fs).Remove?
    requires Flat(es, chainId) == Flat(fs, chainId)
    ensures Last(es) == Last(fs) && Flat(Init(es), chainId) == Flat(Init(fs), chainId)
  {
    SameCut(Flat(Init(es), chainId), [ReorgMessage(chainId, Last(es).hashes)],
            Flat(Init(fs), chainId), [ReorgMessage(chainId, Last(fs).hashes)]);
    assert [ReorgMessage(chainId, Last(es).hashes)][0] == [ReorgMessage(chainId, Last(fs).hashes)][0];
  }

  lemma SameLastKind(es: seq<Entry>, fs: seq<Entry>, chainId: string)
    requires Carrying(es, chainId) && Carrying(fs, chainId) && Flat(es, chainId) == Flat(fs, chainId)
    ensures es == [] <==> fs == []
    ensures es != [] && fs != [] ==> (Last(es).Add? <==> Last(fs).Add?)
  {
    LastMessage(es, chainId);
    LastMessage(fs, chainId);
  }

  /** A flat log can be cut into whole blocks in one way only. */
  lemma {:induction false} GroupingIsUnique(es: seq<Entry>, fs: seq<Entry>, chainId: string)
    requires Whole(es, chainId) && Whole(fs, chainId) && Flat(es, chainId) == Flat(fs, chainId)
    ensures Bare(es) == Bare(fs)
  {
    SameLastKind(es, fs, chainId);
    if es != [] {
      WholeInit(es, chainId);
      WholeInit(fs, chainId);
      if Last(es).Add? {
        SameLastBlock(es, fs, chainId);
      } else {
        SameLastRollback(es, fs, chainId);
      }
      GroupingIsUnique(Init(es), Init(fs), chainId);
    }
  }

  // ---------- the log of the indexer, block by block ----------

  function IsLoud(): Entry -> bool {
    (e: Entry) => e.Add? ==> e.deltas != []
  }

  /** The entries that put messages on the log. */
  function Loud(es: seq<Entry>): seq<Entry> {
    Filter(es, IsLoud())
  }

  lemma {:induction false} LoudIsFlatAlike(es: seq<Entry>, chainId: string)
    ensures Flat(Loud(es), chainId) == Flat(es, chainId)
  {
    if es != [] {
      LoudIsFlatAlike(Init(es), chainId);
      if IsLoud()(Last(es)) {
        InitOfAppend(Loud(Init(es)), Last(es));
      }
    }
  }

  lemma {:induction false} LoudStandsAlike(es: seq<Entry>)
    ensures Standing(Loud(es)) == Loud(Standing(es))
  {
    if es != [] {
      LoudStandsAlike(Init(es));
      if IsLoud()(Last(es)) {
        StandingNext(Loud(Init(es)), Last(es));
      }
      match Last(es)
      case Add(_, _, _) => InitOfAppend(Standing(Init(es)), Last(es));
      case Remove(hashes) => FilterTwice(Standing(Init(es)), IsLoud(), Outside(hashes));
    }
  }

  lemma FlatNext(es: seq<Entry>, e: Entry, chainId: string)
    ensures Flat(es + [e], chainId) ==
            Flat(es, chainId) + if e.Add? then Messages(e.deltas) else [ReorgMessage(chainId, e.hashes)]
  {
    InitOfAppend(es, e);
  }

  /** What an unbroken run wrote is its log. */
  lemma {:induction false} WrittenIsLog(chainId: string, acts: seq<Action>)
    requires Legal(Start(chainId), acts) && Unbroken(acts)
    ensures Flat(Written(Start(chainId), acts), chainId) == After(Start(chainId), acts).log
  {
    if acts != [] {
      var a, s, written := Last(acts), After(Start(chainId), Init(acts)), Written(Start(chainId), Init(acts));
      assert a in acts && forall b :: b in Init(acts) ==> b in acts;
      WrittenIsLog(chainId, Init(acts));
      ChainNeverChanges(Start(chainId), Init(acts));
      assert Writes(s, a) == [] ==> written + Writes(s, a) == written;
      match a
      case Publish(_, block, deltas) => FlatNext(written, Add(block.hash, deltas, []), chainId);
      case Announce => FlatNext(written, Remove(s.phase.rolledBack), chainId);
      case _ =>
    }
  }

  /** A block last added by a loud entry still stands. */
  lemma {:induction false} LastLoudStands(es: seq<Entry>)
    requires Loud(es) != [] && Last(Loud(es)).Add?
    ensures Named(Standing(es), Last(Loud(es)).hash)
  {
    var standing := Standing(es);
    if IsLoud()(Last(es)) {
      assert standing[|standing| - 1] == Last(es);
    } else {
      LastLoudStands(Init(es));
      var before := Standing(Init(es));
      var i :| 0 <= i < |before| && before[i].Add? && before[i].hash == Last(Loud(es)).hash;
      assert standing[i] == before[i];
    }
  }

  /** A block about to be published does not stand. */
  lemma PublishedIsNew(s: State, a: Action, standing: seq<Entry>, header: string -> StoredBlock)
    requires Safe(s) && Enabled(s, a) && a.Publish? && Honest(a, header) && InStep(s, standing, header)
    ensures !Named(standing, a.block.hash)
  {
    assert a.block.hash !in s.blocks;
  }

  lemma WholeNext(es: seq<Entry>, e: Entry, chainId: string)
    requires Whole(es, chainId)
    requires e.Add? ==> e.deltas != [] && Carries(e.deltas, chainId, e.hash)
    requires e.Add? && es != [] && Last(es).Add? ==> Last(es).hash != e.hash
    ensures Whole(es + [e], chainId)
  {
    AppendedElements(es, e);
  }

  /** What an unbroken run wrote adds one block after another, never one twice in a row. */
  lemma {:induction false} WrittenIsWhole(chainId: string, acts: seq<Action>, header: string -> StoredBlock)
    requires Legal(Start(chainId), acts) && Unbroken(acts) && forall a :: a in acts ==> Honest(a, header)
    ensures Whole(Loud(Written(Start(chainId), acts)), chainId)
  {
    if acts != [] {
      var a, s, written := Last(acts), After(Start(chainId), Init(acts)), Written(Start(chainId), Init(acts));
      assert a in acts && forall b :: b in Init(acts) ==> b in acts;
      WrittenIsWhole(chainId, Init(acts), header);
      RunStaysInStep(chainId, Init(acts), header);
      EveryRunIsSafe(Start(chainId), Init(acts));
      ChainNeverChanges(Start(chainId), Init(acts));
      assert Writes(s, a) == [] ==> written + Writes(s, a) == written;
      if Writes(s, a) != [] {
        var e := Writes(s, a)[0];
        InitOfAppend(written, e);
        if IsLoud()(e) {
          if e.Add? && Loud(written) != [] && Last(Loud(written)).Add? {
            LastLoudStands(written);
            PublishedIsNew(s, a, Standing(written), header);
          }
          WholeNext(Loud(written), e, chainId);
        }
      }
    }
  }
}
