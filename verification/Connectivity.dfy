/**
 Connectivity over a list of unordered links, in the three forms the proofs need: a representative
 computed by merging the links in order, walks through the links, and the least equivalence
 relation that contains the links.
 */
module Connectivity {
  import opened Sequences

  datatype Pair = Pair(a: string, b: string) {
    ghost predicate Links(x: string, y: string) {
      (a == x && b == y) || (a == y && b == x)
    }
  }

  /** The representative of x once every link of ps has been merged in order. */
  ghost function Label(ps: seq<Pair>, x: string): string {
    if ps == [] then x
    else if Label(Init(ps), x) == Label(Init(ps), Last(ps).b) then Label(Init(ps), Last(ps).a)
    else Label(Init(ps), x)
  }

  ghost predicate Joined(ps: seq<Pair>, x: string, y: string) {
    Label(ps, x) == Label(ps, y)
  }

  /** w leads from x to y, each step crossing one link of ps. */
  ghost predicate Walk(ps: seq<Pair>, x: string, w: seq<Pair>, y: string) {
    if w == [] then x == y
    else
      Last(w) in ps &&
      ((Last(w).b == y && Walk(ps, x, Init(w), Last(w).a)) ||
       (Last(w).a == y && Walk(ps, x, Init(w), Last(w).b)))
  }

  lemma {:induction false} LinkJoins(ps: seq<Pair>, p: Pair)
    requires p in ps
    ensures Joined(ps, p.a, p.b)
  {
    if p != Last(ps) {
      LinkJoins(Init(ps), p);
    }
  }

  lemma {:induction false} LabelIdempotent(ps: seq<Pair>, x: string)
    ensures Label(ps, Label(ps, x)) == Label(ps, x)
  {
    if ps != [] {
      LabelIdempotent(Init(ps), x);
      LabelIdempotent(Init(ps), Last(ps).a);
    }
  }

  /** Joined is contained in every equivalence that relates the ends of each link; here the other
      equivalence is the one of a second list of links. */
  lemma {:induction false} JoinedIsLeast(ps: seq<Pair>, qs: seq<Pair>, x: string, y: string)
    requires forall p :: p in ps ==> Joined(qs, p.a, p.b)
    requires Joined(ps, x, y)
    ensures Joined(qs, x, y)
  {
    if ps != [] {
      var i, p := Init(ps), Last(ps);
      forall u, v {:trigger Joined(i, u, v)} | Joined(i, u, v)
        ensures Joined(qs, u, v)
      {
        JoinedIsLeast(i, qs, u, v);
      }
      if !Joined(i, x, y) {
        assert p in ps;
        assert (Joined(i, x, p.a) && Joined(i, y, p.b)) || (Joined(i, x, p.b) && Joined(i, y, p.a));
      }
    }
  }

  lemma JoinedMonotone(ps: seq<Pair>, qs: seq<Pair>, x: string, y: string)
    requires Elements(ps) <= Elements(qs)
    requires Joined(ps, x, y)
    ensures Joined(qs, x, y)
  {
    forall p | p in ps
      ensures Joined(qs, p.a, p.b)
    {
      assert p in Elements(ps);
      LinkJoins(qs, p);
    }
    JoinedIsLeast(ps, qs, x, y);
  }

  /** A name that no link mentions stays alone. */
  lemma {:induction false} UntouchedAlone(ps: seq<Pair>, x: string, y: string)
    requires forall p :: p in ps ==> p.a != x && p.b != x
    ensures Label(ps, x) == x
    ensures Joined(ps, x, y) ==> x == y
  {
    if ps != [] {
      UntouchedAlone(Init(ps), x, y);
      UntouchedAlone(Init(ps), x, Last(ps).a);
      UntouchedAlone(Init(ps), x, Last(ps).b);
    }
  }

  // ---------- walks ----------

  lemma {:induction false} WalkMonotone(ps: seq<Pair>, qs: seq<Pair>, x: string, w: seq<Pair>, y: string)
    requires Walk(ps, x, w, y)
    requires forall p :: p in w ==> p in qs
    ensures Walk(qs, x, w, y)
  {
    if w != [] {
      if Last(w).b == y && Walk(ps, x, Init(w), Last(w).a) {
        WalkMonotone(ps, qs, x, Init(w), Last(w).a);
      } else {
        WalkMonotone(ps, qs, x, Init(w), Last(w).b);
      }
    }
  }

  lemma {:induction false} WalkStaysInside(ps: seq<Pair>, x: string, w: seq<Pair>, y: string)
    requires Walk(ps, x, w, y)
    ensures forall p :: p in w ==> p in ps
  {
    if w != [] {
      if Last(w).b == y && Walk(ps, x, Init(w), Last(w).a) {
        WalkStaysInside(ps, x, Init(w), Last(w).a);
      } else {
        WalkStaysInside(ps, x, Init(w), Last(w).b);
      }
    }
  }

  lemma {:induction false} WalkJoin(ps: seq<Pair>, x: string, w: seq<Pair>, y: string, v: seq<Pair>, z: string)
    requires Walk(ps, x, w, y) && Walk(ps, y, v, z)
    ensures Walk(ps, x, w + v, z)
  {
    if v == [] {
      assert w + v == w;
    } else {
      assert Init(w + v) == w + Init(v) && Last(w + v) == Last(v);
      if Last(v).b == z && Walk(ps, y, Init(v), Last(v).a) {
        WalkJoin(ps, x, w, y, Init(v), Last(v).a);
      } else {
        WalkJoin(ps, x, w, y, Init(v), Last(v).b);
      }
    }
  }

  lemma WalkStep(ps: seq<Pair>, x: string, w: seq<Pair>, y: string, p: Pair, z: string)
    requires Walk(ps, x, w, y) && p in ps && p.Links(y, z)
    ensures Walk(ps, x, w + [p], z)
  {
    assert Init(w + [p]) == w && Last(w + [p]) == p;
  }

  lemma {:induction false} WalkBack(ps: seq<Pair>, x: string, w: seq<Pair>, y: string) returns (v: seq<Pair>)
    requires Walk(ps, x, w, y)
    ensures Walk(ps, y, v, x)
    ensures Elements(v) == Elements(w)
  {
    v := [];
    if w != [] {
      var p := Last(w);
      var u := if p.b == y && Walk(ps, x, Init(w), p.a) then p.a else p.b;
      var back := WalkBack(ps, x, Init(w), u);
      WalkStep(ps, y, [], y, p, u);
      WalkJoin(ps, y, [] + [p], u, back, x);
      v := [] + [p] + back;
      assert w == Init(w) + [p];
      forall q ensures q in v <==> q in w {
        assert q in back <==> q in Init(w) by { assert q in Elements(back) <==> q in Elements(Init(w)); }
      }
    }
  }

  lemma {:induction false} WalkJoins(ps: seq<Pair>, x: string, w: seq<Pair>, y: string)
    requires Walk(ps, x, w, y)
    ensures Joined(ps, x, y)
  {
    if w != [] {
      LinkJoins(ps, Last(w));
      if Last(w).b == y && Walk(ps, x, Init(w), Last(w).a) {
        WalkJoins(ps, x, Init(w), Last(w).a);
      } else {
        WalkJoins(ps, x, Init(w), Last(w).b);
      }
    }
  }

  lemma {:induction false} JoinedHasWalk(ps: seq<Pair>, x: string, y: string) returns (w: seq<Pair>)
    requires Joined(ps, x, y)
    ensures Walk(ps, x, w, y)
  {
    if ps == [] {
      w := [];
    } else {
      var i, p := Init(ps), Last(ps);
      if Joined(i, x, y) {
        w := JoinedHasWalk(i, x, y);
        LiftWalk(ps, x, w, y);
      } else {
        var near, far := if Joined(i, x, p.a) then p.a else p.b, if Joined(i, x, p.a) then p.b else p.a;
        var w1 := JoinedHasWalk(i, x, near);
        var w2 := JoinedHasWalk(i, far, y);
        LiftWalk(ps, x, w1, near);
        LiftWalk(ps, far, w2, y);
        WalkStep(ps, x, w1, near, p, far);
        WalkJoin(ps, x, w1 + [p], far, w2, y);
        w := w1 + [p] + w2;
      }
    }
  }

  lemma LiftWalk(ps: seq<Pair>, x: string, w: seq<Pair>, y: string)
    requires ps != [] && Walk(Init(ps), x, w, y)
    ensures Walk(ps, x, w, y)
  {
    WalkStaysInside(Init(ps), x, w, y);
    WalkMonotone(Init(ps), ps, x, w, y);
  }

  ghost predicate Connects(ps: seq<Pair>, x: string, w: seq<Pair>, y: string) {
    Walk(ps, x, w, y)
  }

  /** Merging the links in order relates exactly the names that a chain of links connects. */
  lemma JoinedIffWalk(ps: seq<Pair>, x: string, y: string)
    ensures Joined(ps, x, y) <==> exists w :: Connects(ps, x, w, y)
  {
    if Joined(ps, x, y) {
      var w := JoinedHasWalk(ps, x, y);
      assert Connects(ps, x, w, y);
    } else if exists w :: Connects(ps, x, w, y) {
      var w :| Connects(ps, x, w, y);
      WalkJoins(ps, x, w, y);
    }
  }
}
