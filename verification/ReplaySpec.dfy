/**
 What replaying a list of evidence rows means: the clusters as a function of the rows alone,
 with no map, queue or disjoint set in sight.
 */
module ReplaySpec {
  import opened Sequences
  import opened Domain
  import opened Connectivity
  import opened Tree
  import opened Aggregates

  // ---------- keys ----------

  /** String order, character by character. */
  predicate LexLe(a: string, b: string) {
    a == "" || (b != "" && (a[0] < b[0] || (a[0] == b[0] && LexLe(a[1..], b[1..]))))
  }

  function NormalizePair(a: string, b: string): Pair {
    if LexLe(a, b) then Pair(a, b) else Pair(b, a)
  }

  function Digit(d: int): char
    requires 0 <= d < 10
  {
    "0123456789"[d]
  }

  function Decimal(n: int): string
    decreases if n < 0 then 1 - n else n
  {
    if n < 0 then "-" + Decimal(-n)
    else if n < 10 then [Digit(n)]
    else Decimal(n / 10) + [Digit(n % 10)]
  }

  /** Rows of one transaction share a source; a row without one is a source of its own. */
  function SourceKey(e: MergeEvidence): string {
    match e.claim.sourceTxId
    case Some(txid) => txid
    case None => "op:" + Decimal(e.opId)
  }

  function RowPair(e: MergeEvidence): Pair {
    NormalizePair(e.claim.addressA, e.claim.addressB)
  }

  /** The identifier derived from an anchor address; distinct anchors have distinct identifiers. */
  datatype ClusterId = Derived(anchor: string)

  // ---------- from rows to weighted links ----------

  /** Rows that take part in replay. */
  predicate Useful(e: MergeEvidence) {
    e.status == Active && e.claim.addressA != e.claim.addressB
  }

  function Live(es: seq<MergeEvidence>): seq<MergeEvidence> {
    Filter(es, Useful)
  }

  /** Addresses in the order in which rows mention them. */
  ghost function FirstSeen(rs: seq<MergeEvidence>): seq<string> {
    if rs == [] then []
    else Touch(Touch(FirstSeen(Init(rs)), Last(rs).claim.addressA), Last(rs).claim.addressB)
  }

  /** Unordered pairs in the order in which rows mention them. */
  ghost function PairOrder(rs: seq<MergeEvidence>): seq<Pair> {
    if rs == [] then [] else Touch(PairOrder(Init(rs)), RowPair(Last(rs)))
  }

  /** The best confidence that each source gives the pair p. */
  ghost function BySource(rs: seq<MergeEvidence>, p: Pair): map<string, real> {
    if rs == [] then map[]
    else Raise(BySource(Init(rs), p), p, Last(rs))
  }

  function Raise(m: map<string, real>, p: Pair, e: MergeEvidence): map<string, real> {
    var k := SourceKey(e);
    if RowPair(e) == p && (k !in m || e.claim.confidence > m[k]) then m[k := e.claim.confidence] else m
  }

  /** Independent sources reinforce each other. */
  ghost function NoisyOr(m: map<string, real>): real {
    1.0 - Complement(m)
  }

  ghost function Strength(rs: seq<MergeEvidence>, p: Pair): real {
    NoisyOr(BySource(rs, p))
  }

  ghost function Strengths(rs: seq<MergeEvidence>): Pair -> real {
    p => Strength(rs, p)
  }

  /** The links that the replay keeps. */
  ghost function Spanning(rs: seq<MergeEvidence>): seq<Pair> {
    Forest(PairOrder(rs))
  }

  // ---------- from links to clusters ----------

  /** The first name of order that is joined to x. */
  ghost function FirstJoined(order: seq<string>, ps: seq<Pair>, x: string): Option<string> {
    if order == [] then None
    else
      var earlier := FirstJoined(Init(order), ps, x);
      if earlier.Some? then earlier
      else if Joined(ps, x, Last(order)) then Some(Last(order))
      else None
  }

  /** The earliest seen address of x's cluster. */
  ghost function Anchor(rs: seq<MergeEvidence>, x: string): string {
    match FirstJoined(FirstSeen(rs), PairOrder(rs), x)
    case Some(a) => a
    case None => x
  }

  /** The least strength among the links of s, and at most 1. */
  ghost function Weakest(s: set<Pair>, c: Pair -> real): real {
    if s == {} then 1.0
    else var p :| p in s; var rest := Weakest(s - {p}, c); if c(p) < rest then c(p) else rest
  }

  ghost function Confidence(rs: seq<MergeEvidence>, x: string): real {
    Weakest(TreePath(Spanning(rs), Anchor(rs, x), x), Strengths(rs))
  }

  datatype Cluster = Cluster(
    id: ClusterId,
    anchor: string,
    size: nat,
    representative: real,
    members: map<string, real>)

  ghost function Members(rs: seq<MergeEvidence>, a: string): map<string, real> {
    map x | x in Elements(FirstSeen(rs)) && Anchor(rs, x) == a :: Confidence(rs, x)
  }

  ghost function Mean(m: map<string, real>): real {
    if |m| == 0 then 0.0 else Total(m) / (|m| as real)
  }

  ghost function ClusterAt(rs: seq<MergeEvidence>, a: string): Cluster {
    var m := Members(rs, a);
    Cluster(Derived(a), a, |m|, Mean(m), m)
  }

  ghost function ClustersOf(rs: seq<MergeEvidence>): set<Cluster> {
    set x | x in Elements(FirstSeen(rs)) :: ClusterAt(rs, Anchor(rs, x))
  }

  /** The clusters that the rows es stand for. */
  ghost function Clusters(es: seq<MergeEvidence>): set<Cluster> {
    ClustersOf(Live(es))
  }

  // ---------- basic facts ----------

  lemma {:induction false} LexTotal(a: string, b: string)
    ensures LexLe(a, b) || LexLe(b, a)
    ensures LexLe(a, b) && LexLe(b, a) ==> a == b
  {
    if a != "" && b != "" && a[0] == b[0] {
      LexTotal(a[1..], b[1..]);
      assert a == [a[0]] + a[1..] && b == [b[0]] + b[1..];
    }
  }

  /** Two rows fall on the same pair exactly when they name the same two addresses, in either order. */
  lemma NormalizeIsUnordered(a: string, b: string, c: string, d: string)
    ensures NormalizePair(a, b) == NormalizePair(c, d) <==> (a == c && b == d) || (a == d && b == c)
  {
    LexTotal(a, b);
    LexTotal(c, d);
  }

  lemma {:induction false} DecimalDigits(n: int)
    ensures |Decimal(n)| > 0
    ensures n >= 0 ==> '-' !in Decimal(n)
    decreases if n < 0 then 1 - n else n
  {
    if n >= 10 {
      DecimalDigits(n / 10);
    }
  }

  lemma DigitInjective(c: int, d: int)
    requires 0 <= c < 10 && 0 <= d < 10 && Digit(c) == Digit(d)
    ensures c == d
  {
    var i :| 0 <= i < 10 && i == c;
  }

  lemma {:induction false} NaturalDecimalInjective(m: nat, n: nat)
    requires Decimal(m) == Decimal(n)
    ensures m == n
  {
    DecimalDigits(m / 10);
    DecimalDigits(n / 10);
    if m < 10 && n < 10 {
      assert Decimal(m)[0] == Digit(m) && Decimal(n)[0] == Digit(n);
      DigitInjective(m, n);
    } else if m >= 10 && n >= 10 {
      var s, t := Decimal(m / 10), Decimal(n / 10);
      InitOfAppend(s, Digit(m % 10));
      InitOfAppend(t, Digit(n % 10));
      NaturalDecimalInjective(m / 10, n / 10);
      DigitInjective(m % 10, n % 10);
    }
  }

  lemma CancelPrefix(p: string, s: string, t: string)
    requires p + s == p + t
    ensures s == t
  {
    assert s == (p + s)[|p|..] && t == (p + t)[|p|..];
  }

  lemma NegativeDecimal(n: int)
    requires n < 0
    ensures Decimal(n) == "-" + Decimal(-n)
  {
  }

  lemma DecimalSign(n: int)
    ensures Decimal(n) != "" && (Decimal(n)[0] == '-' <==> n < 0)
  {
    DecimalDigits(n);
    if n >= 0 {
      assert Decimal(n)[0] in Decimal(n);
    }
  }

  lemma DecimalInjective(m: int, n: int)
    requires Decimal(m) == Decimal(n)
    ensures m == n
  {
    DecimalSign(m);
    DecimalSign(n);
    if m < 0 {
      NegativeDecimal(m);
      NegativeDecimal(n);
      CancelPrefix("-", Decimal(-m), Decimal(-n));
      NaturalDecimalInjective(-m, -n);
    } else {
      NaturalDecimalInjective(m, n);
    }
  }

  /** Exactly when two rows count as one observation. The last case is the one the design does not
      intend: a transaction literally named like a row key. */
  lemma SourceKeyMeaning(e: MergeEvidence, f: MergeEvidence)
    ensures SourceKey(e) == SourceKey(f) <==>
            match (e.claim.sourceTxId, f.claim.sourceTxId)
            case (Some(s), Some(t)) => s == t
            case (None, None) => e.opId == f.opId
            case (Some(s), None) => s == "op:" + Decimal(f.opId)
            case (None, Some(t)) => t == "op:" + Decimal(e.opId)
  {
    if e.claim.sourceTxId.None? && f.claim.sourceTxId.None? && SourceKey(e) == SourceKey(f) {
      CancelPrefix("op:", Decimal(e.opId), Decimal(f.opId));
      DecimalInjective(e.opId, f.opId);
    }
  }

  /** A transaction spelled like a row key is taken for that row: the two count as one observation. */
  lemma SourceKeysCollide() returns (e: MergeEvidence, f: MergeEvidence)
    ensures e.claim.sourceTxId.Some? && f.claim.sourceTxId.None?
    ensures SourceKey(e) == SourceKey(f)
  {
    e := MergeEvidence(2, MergeCandidate("btc", "A", "B", "change", Some("op:1"), Some("b1"), Some(1), 0.4), Active, None);
    f := MergeEvidence(1, MergeCandidate("btc", "A", "B", "manual", None, None, None, 0.5), Active, None);
    assert Decimal(1) == ['1'];
    SourceKeyMeaning(e, f);
  }

  lemma {:induction false} FirstSeenFacts(rs: seq<MergeEvidence>)
    ensures Distinct(FirstSeen(rs))
    ensures forall x :: x in FirstSeen(rs) <==> exists e :: e in rs && (e.claim.addressA == x || e.claim.addressB == x)
  {
    if rs != [] {
      var i, e := Init(rs), Last(rs);
      FirstSeenFacts(i);
      DistinctTouch(FirstSeen(i), e.claim.addressA);
      DistinctTouch(Touch(FirstSeen(i), e.claim.addressA), e.claim.addressB);
      assert rs == i + [e];
      assert e in rs;
    }
  }

  lemma {:induction false} PairIsSeen(rs: seq<MergeEvidence>, p: Pair)
    requires p in PairOrder(rs)
    ensures p.a in FirstSeen(rs) && p.b in FirstSeen(rs)
  {
    var i, e := Init(rs), Last(rs);
    TouchMember(PairOrder(i), RowPair(e), p);
    TouchMember(FirstSeen(i), e.claim.addressA, p.a);
    TouchMember(FirstSeen(i), e.claim.addressA, p.b);
    TouchMember(Touch(FirstSeen(i), e.claim.addressA), e.claim.addressB, p.a);
    TouchMember(Touch(FirstSeen(i), e.claim.addressA), e.claim.addressB, p.b);
    if p in PairOrder(i) {
      PairIsSeen(i, p);
    }
  }

  lemma {:induction false} PairOrderFacts(rs: seq<MergeEvidence>)
    ensures Distinct(PairOrder(rs))
    ensures forall p :: p in PairOrder(rs) <==> exists e :: e in rs && RowPair(e) == p
    ensures forall p :: p in PairOrder(rs) ==> p.a in FirstSeen(rs) && p.b in FirstSeen(rs)
  {
    if rs != [] {
      var i, e := Init(rs), Last(rs);
      PairOrderFacts(i);
      DistinctTouch(PairOrder(i), RowPair(e));
      assert rs == i + [e] && e in rs;
      forall p
        ensures p in PairOrder(rs) <==> exists f :: f in rs && RowPair(f) == p
      {
        TouchMember(PairOrder(i), RowPair(e), p);
      }
    }
    forall p | p in PairOrder(rs)
      ensures p.a in FirstSeen(rs) && p.b in FirstSeen(rs)
    {
      PairIsSeen(rs, p);
    }
  }

  /** What FirstJoined finds. */
  lemma {:induction false} FirstJoinedFacts(order: seq<string>, ps: seq<Pair>, x: string)
    ensures FirstJoined(order, ps, x).Some? <==> exists y :: y in order && Joined(ps, x, y)
    ensures FirstJoined(order, ps, x).Some? ==>
              exists i :: 0 <= i < |order| && FirstJoined(order, ps, x) == Some(order[i]) && Joined(ps, x, order[i]) &&
                          forall j :: 0 <= j < i ==> !Joined(ps, x, order[j])
  {
    if order != [] {
      FirstJoinedFacts(Init(order), ps, x);
      assert order == Init(order) + [Last(order)];
      if FirstJoined(Init(order), ps, x).Some? {
        var i :| 0 <= i < |Init(order)| && FirstJoined(Init(order), ps, x) == Some(Init(order)[i]) &&
          Joined(ps, x, Init(order)[i]) && forall j :: 0 <= j < i ==> !Joined(ps, x, Init(order)[j]);
        assert Init(order)[i] == order[i];
        assert forall j :: 0 <= j < i ==> Init(order)[j] == order[j];
      } else {
        assert forall j :: 0 <= j < |order| - 1 ==> order[j] == Init(order)[j] && order[j] in Init(order);
        assert order[|order| - 1] == Last(order);
      }
    }
  }

  lemma {:induction false} FirstJoinedSame(order: seq<string>, ps: seq<Pair>, x: string, y: string)
    requires Joined(ps, x, y)
    ensures FirstJoined(order, ps, x) == FirstJoined(order, ps, y)
  {
    if order != [] {
      FirstJoinedSame(Init(order), ps, x, y);
    }
  }

  /** The anchor of a mentioned address is mentioned, joined to it, shared by everything joined to
      it, and its own anchor. */
  lemma AnchorFacts(rs: seq<MergeEvidence>, x: string)
    requires x in FirstSeen(rs)
    ensures Anchor(rs, x) in FirstSeen(rs)
    ensures Joined(PairOrder(rs), x, Anchor(rs, x))
    ensures Anchor(rs, Anchor(rs, x)) == Anchor(rs, x)
    ensures forall y :: y in FirstSeen(rs) ==> (Anchor(rs, y) == Anchor(rs, x) <==> Joined(PairOrder(rs), x, y))
  {
    var ps, order := PairOrder(rs), FirstSeen(rs);
    FirstJoinedFacts(order, ps, x);
    assert Joined(ps, x, x);
    var a := Anchor(rs, x);
    FirstJoinedSame(order, ps, x, a);
    forall y | y in order
      ensures Anchor(rs, y) == Anchor(rs, x) <==> Joined(ps, x, y)
    {
      FirstJoinedFacts(order, ps, y);
      assert Joined(ps, y, y);
      if Joined(ps, x, y) {
        FirstJoinedSame(order, ps, x, y);
      }
    }
  }

  /** No address of a cluster is seen before its anchor. */
  lemma AnchorIsEarliest(rs: seq<MergeEvidence>, i: nat, j: nat)
    requires i < |FirstSeen(rs)| && j < |FirstSeen(rs)|
    requires Anchor(rs, FirstSeen(rs)[j]) == FirstSeen(rs)[i]
    ensures i <= j
  {
    var x := FirstSeen(rs)[j];
    FirstSeenFacts(rs);
    FirstJoinedFacts(FirstSeen(rs), PairOrder(rs), x);
    assert Joined(PairOrder(rs), x, x);
  }

  /** The earliest address joined to x is x's anchor. */
  lemma EarliestIsAnchor(rs: seq<MergeEvidence>, k: nat, x: string)
    requires k < |FirstSeen(rs)| && Joined(PairOrder(rs), x, FirstSeen(rs)[k])
    requires forall j :: 0 <= j < k ==> !Joined(PairOrder(rs), x, FirstSeen(rs)[j])
    ensures Anchor(rs, x) == FirstSeen(rs)[k]
  {
    var order := FirstSeen(rs);
    FirstJoinedFacts(order, PairOrder(rs), x);
    assert order[k] in order;
  }

  lemma {:induction false} WeakestFacts(s: set<Pair>, c: Pair -> real)
    ensures Weakest(s, c) <= 1.0
    ensures forall p :: p in s ==> Weakest(s, c) <= c(p)
    ensures Weakest(s, c) == 1.0 || exists p :: p in s && Weakest(s, c) == c(p)
  {
    if s != {} {
      var p :| p in s && Weakest(s, c) == (var rest := Weakest(s - {p}, c); if c(p) < rest then c(p) else rest);
      WeakestFacts(s - {p}, c);
    }
  }

  lemma WeakestExtend(s: set<Pair>, c: Pair -> real, p: Pair)
    ensures Weakest(s + {p}, c) == if c(p) < Weakest(s, c) then c(p) else Weakest(s, c)
  {
    WeakestFacts(s, c);
    WeakestFacts(s + {p}, c);
  }

  /** Raising every link can only raise the weakest one. */
  lemma WeakestMonotone(s: set<Pair>, c: Pair -> real, d: Pair -> real)
    requires forall p :: p in s ==> c(p) <= d(p)
    ensures Weakest(s, c) <= Weakest(s, d)
  {
    WeakestFacts(s, c);
    WeakestFacts(s, d);
  }
}
