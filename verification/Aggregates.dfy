/**
 Order-free sums and products over maps. The loops that compute them visit the entries in an
 arbitrary order, so each comes with a lemma that any entry may be taken first.
 */
module Aggregates {

  /** The product of (1 - m[k]) over the entries of m. */
  ghost function Complement(m: map<string, real>): real {
    if m == map[] then 1.0
    else var k :| k in m; Unless(m[k], Complement(m - {k}))
  }

  /** The chance that neither a claim of confidence c nor an independent rest holds. */
  function Unless(c: real, rest: real): real {
    (1.0 - c) * rest
  }

  /** The sum of the values of m. */
  ghost function Total(m: map<string, real>): real {
    if m == map[] then 0.0
    else var k :| k in m; m[k] + Total(m - {k})
  }

  ghost predicate Probabilities(m: map<string, real>) {
    forall k :: k in m ==> 0.0 <= m[k] <= 1.0
  }

  lemma UnlessSwap(c: real, d: real, rest: real)
    ensures Unless(c, Unless(d, rest)) == Unless(d, Unless(c, rest))
  {
  }

  lemma TimesMonotone(a: real, x: real, y: real)
    requires 0.0 <= a && x <= y
    ensures a * x <= a * y
  {
  }

  lemma UnlessInUnit(c: real, rest: real)
    requires 0.0 <= c <= 1.0 && 0.0 <= rest <= 1.0
    ensures 0.0 <= Unless(c, rest) <= 1.0 - c
  {
    TimesMonotone(1.0 - c, 0.0, rest);
    TimesMonotone(1.0 - c, rest, 1.0);
  }

  lemma UnlessAntitone(c: real, rest: real, c': real, rest': real)
    requires 0.0 <= c <= c' <= 1.0 && 0.0 <= rest' <= rest
    ensures Unless(c', rest') <= Unless(c, rest)
  {
    TimesMonotone(1.0 - c', rest', rest);
    TimesMonotone(rest, 1.0 - c', 1.0 - c);
  }

  lemma {:induction false} ComplementPick(m: map<string, real>, k: string)
    requires k in m
    ensures Complement(m) == Unless(m[k], Complement(m - {k}))
  {
    var j :| j in m && Complement(m) == Unless(m[j], Complement(m - {j}));
    if j != k {
      ComplementPick(m - {j}, k);
      ComplementPick(m - {k}, j);
      assert m - {j} - {k} == m - {k} - {j};
      UnlessSwap(m[j], m[k], Complement(m - {j} - {k}));
    }
  }

  lemma {:induction false} TotalPick(m: map<string, real>, k: string)
    requires k in m
    ensures Total(m) == m[k] + Total(m - {k})
  {
    var j :| j in m && Total(m) == m[j] + Total(m - {j});
    if j != k {
      TotalPick(m - {j}, k);
      TotalPick(m - {k}, j);
      assert m - {j} - {k} == m - {k} - {j};
    }
  }

  lemma TotalExtend(m: map<string, real>, k: string, v: real)
    requires k !in m
    ensures Total(m[k := v]) == Total(m) + v
  {
    TotalPick(m[k := v], k);
    assert m[k := v] - {k} == m;
  }

  lemma {:induction false} ComplementInUnit(m: map<string, real>)
    requires Probabilities(m)
    ensures 0.0 <= Complement(m) <= 1.0
  {
    if m != map[] {
      var k :| k in m && Complement(m) == Unless(m[k], Complement(m - {k}));
      ComplementInUnit(m - {k});
      UnlessInUnit(m[k], Complement(m - {k}));
    }
  }

  lemma ComplementBelow(m: map<string, real>, k: string)
    requires Probabilities(m) && k in m
    ensures Complement(m) <= 1.0 - m[k]
  {
    ComplementPick(m, k);
    ComplementInUnit(m - {k});
    UnlessInUnit(m[k], Complement(m - {k}));
  }

  /** n is m without some entries of value zero. */
  ghost predicate DropsZeros(m: map<string, real>, n: map<string, real>) {
    forall k :: (k in n ==> k in m && m[k] == n[k]) && (k in m && k !in n ==> m[k] == 0.0)
  }

  /** An entry of value zero adds nothing. */
  lemma {:induction false} ComplementIgnoresZeros(m: map<string, real>, n: map<string, real>)
    requires DropsZeros(m, n)
    ensures Complement(m) == Complement(n)
  {
    if k :| k in m && k !in n {
      ComplementPick(m, k);
      ComplementIgnoresZeros(m - {k}, n);
      assert Unless(0.0, Complement(n)) == Complement(n);
    } else {
      assert m == n;
    }
  }

  /** More sources, or stronger ones, can only shrink the product. */
  lemma {:induction false} ComplementAntitone(m: map<string, real>, n: map<string, real>)
    requires Probabilities(m) && Probabilities(n)
    requires forall k :: k in m ==> k in n && m[k] <= n[k]
    ensures Complement(n) <= Complement(m)
  {
    if m == map[] {
      ComplementInUnit(n);
    } else {
      var k :| k in m;
      ComplementPick(m, k);
      ComplementPick(n, k);
      ComplementAntitone(m - {k}, n - {k});
      ComplementInUnit(n - {k});
      UnlessAntitone(m[k], Complement(m - {k}), n[k], Complement(n - {k}));
    }
  }
}
