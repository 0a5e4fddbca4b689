/**
 Sequences built one element at a time from the left, as append loops build them.
 */
module Sequences {

  datatype Option<+T> = None | Some(value: T)

  function Last<T>(s: seq<T>): T
    requires s != []
  {
    s[|s| - 1]
  }

  function Init<T>(s: seq<T>): seq<T>
    requires s != []
  {
    s[..|s| - 1]
  }

  ghost function Elements<T>(s: seq<T>): set<T> {
    set x | x in s
  }

  ghost predicate Distinct<T>(s: seq<T>) {
    forall i, j :: 0 <= i < j < |s| ==> s[i] != s[j]
  }

  /** s with x appended unless x is already there. */
  function Touch<T(==)>(s: seq<T>, x: T): seq<T> {
    if x in s then s else s + [x]
  }

  /** The elements of s that satisfy keep, in order. */
  function Filter<T>(s: seq<T>, keep: T -> bool): (r: seq<T>) {
    if s == [] then []
    else if keep(Last(s)) then Filter(Init(s), keep) + [Last(s)]
    else Filter(Init(s), keep)
  }

  lemma SplitLast<T>(s: seq<T>)
    requires s != []
    ensures Init(s) + [Last(s)] == s
  {
  }

  lemma SplitAppended<T>(s: seq<T>, t: seq<T>)
    requires t != []
    ensures s + t == s + Init(t) + [Last(t)]
  {
  }

  lemma AppendAssociates<T>(s: seq<T>, t: seq<T>, u: seq<T>)
    ensures s + t + u == s + (t + u)
  {
  }

  lemma InitElements<T>(s: seq<T>)
    requires s != []
    ensures Last(s) in s && forall x :: x in Init(s) ==> x in s
  {
  }

  lemma InitOfAppend<T>(s: seq<T>, x: T)
    ensures Init(s + [x]) == s && Last(s + [x]) == x
  {
  }

  lemma AppendedElements<T>(s: seq<T>, x: T)
    ensures forall y :: y in s + [x] <==> y in s || y == x
  {
    assert (s + [x])[|s|] == x;
  }

  lemma {:induction false} FilterElements<T>(s: seq<T>, keep: T -> bool)
    ensures forall x :: x in Filter(s, keep) <==> x in s && keep(x)
  {
    if s != [] {
      FilterElements(Init(s), keep);
      assert s == Init(s) + [Last(s)];
    }
  }

  lemma {:induction false} FilterAppend<T>(s: seq<T>, t: seq<T>, keep: T -> bool)
    ensures Filter(s + t, keep) == Filter(s, keep) + Filter(t, keep)
  {
    if t == [] {
      assert s + t == s;
    } else {
      assert Init(s + t) == s + Init(t) && Last(s + t) == Last(t);
      FilterAppend(s, Init(t), keep);
    }
  }

  lemma {:induction false} FilterAll<T>(s: seq<T>, keep: T -> bool)
    requires forall x :: x in s ==> keep(x)
    ensures Filter(s, keep) == s
  {
    if s != [] {
      assert Last(s) in s;
      assert forall x :: x in Init(s) ==> x in s;
      FilterAll(Init(s), keep);
    }
  }

  lemma {:induction false} FilterNone<T>(s: seq<T>, keep: T -> bool)
    requires forall x :: x in s ==> !keep(x)
    ensures Filter(s, keep) == []
  {
    if s != [] {
      assert Last(s) in s;
      assert forall x :: x in Init(s) ==> x in s;
      FilterNone(Init(s), keep);
    }
  }

  /** Two filters that agree on the elements of s select the same elements. */
  lemma {:induction false} FilterSame<T>(s: seq<T>, keep: T -> bool, also: T -> bool)
    requires forall x :: x in s ==> keep(x) == also(x)
    ensures Filter(s, keep) == Filter(s, also)
  {
    if s != [] {
      assert Last(s) in s;
      assert forall x :: x in Init(s) ==> x in s;
      FilterSame(Init(s), keep, also);
    }
  }

  lemma {:induction false} FilterTwice<T>(s: seq<T>, first: T -> bool, second: T -> bool)
    ensures Filter(Filter(s, first), second) == Filter(Filter(s, second), first)
  {
    if s != [] {
      FilterTwice(Init(s), first, second);
    }
  }

  lemma {:induction false} FilterLength<T>(s: seq<T>, keep: T -> bool)
    ensures |Filter(s, keep)| <= |s|
  {
    if s != [] {
      FilterLength(Init(s), keep);
    }
  }

  lemma PrefixSplit<T>(s: seq<T>, t: seq<T>)
    requires s <= t
    ensures t == s + t[|s|..]
    ensures forall x :: x in s ==> x in t
  {
    forall x | x in s
      ensures x in t
    {
      var i :| 0 <= i < |s| && s[i] == x;
      assert t[i] == x;
    }
  }

  lemma TouchMember<T>(s: seq<T>, x: T, y: T)
    ensures y in Touch(s, x) <==> y in s || y == x
  {
    if x !in s {
      assert (s + [x])[|s|] == x;
    }
  }

  lemma DistinctTouch<T>(s: seq<T>, x: T)
    requires Distinct(s)
    ensures Distinct(Touch(s, x))
    ensures Elements(Touch(s, x)) == Elements(s) + {x}
  {
    if x !in s {
      assert Touch(s, x) == s + [x];
      assert x in Elements(Touch(s, x)) by { assert (s + [x])[|s|] == x; }
    }
  }

  /** A sequence without repeats is as long as its set of elements. */
  lemma {:induction false} DistinctSize<T>(s: seq<T>)
    requires Distinct(s)
    ensures |Elements(s)| == |s|
  {
    if s == [] {
      assert Elements(s) == {};
    } else {
      DistinctSize(Init(s));
      assert Elements(s) == Elements(Init(s)) + {Last(s)};
      assert Last(s) !in Elements(Init(s));
    }
  }

  lemma {:induction false} SubsetSize<T>(s: set<T>, t: set<T>)
    requires s <= t
    ensures |s| <= |t|
  {
    if s != {} {
      var x :| x in s;
      SubsetSize(s - {x}, t - {x});
    }
  }

  /** One-to-one functions preserve cardinality. */
  lemma {:induction false} ImageSize<S, T>(xs: set<S>, f: S -> T, ys: set<T>)
    requires forall x, y :: x in xs && y in xs && f(x) == f(y) ==> x == y
    requires ys == set x | x in xs :: f(x)
    ensures |ys| == |xs|
  {
    if xs == {} {
      assert ys == {};
    } else {
      var x :| x in xs;
      var zs := set y | y in xs - {x} :: f(y);
      ImageSize(xs - {x}, f, zs);
      assert ys == zs + {f(x)};
    }
  }
}
