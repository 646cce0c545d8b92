/** Finite sums over sets, and sequences seen as the sets of their elements. */
module Collections {
  datatype Option<+T> = None | Some(value: T)

  /** The sum of f over the elements of s. */
  ghost function Sum<T>(s: set<T>, f: T -> int): int
  {
    if s == {} then 0 else
      var x :| x in s;
      f(x) + Sum(s - {x}, f)
  }

  /** Any element can be taken out first. */
  lemma {:induction false} SumPick<T>(s: set<T>, x: T, f: T -> int)
    requires x in s
    ensures Sum(s, f) == f(x) + Sum(s - {x}, f)
    decreases s
  {
    var y :| y in s && Sum(s, f) == f(y) + Sum(s - {y}, f);
    if y != x {
      SumPick(s - {y}, x, f);
      SumPick(s - {x}, y, f);
      assert s - {y} - {x} == s - {x} - {y};
    }
  }

  lemma {:induction false} SumUnion<T>(a: set<T>, b: set<T>, f: T -> int)
    requires a !! b
    ensures Sum(a + b, f) == Sum(a, f) + Sum(b, f)
    decreases a
  {
    if a == {} {
      assert a + b == b;
    } else {
      var x :| x in a;
      SumPick(a, x, f);
      SumPick(a + b, x, f);
      assert a + b - {x} == (a - {x}) + b;
      SumUnion(a - {x}, b, f);
    }
  }

  lemma {:induction false} SumSame<T>(s: set<T>, f: T -> int, g: T -> int)
    requires forall x :: x in s ==> f(x) == g(x)
    ensures Sum(s, f) == Sum(s, g)
    decreases s
  {
    if s == {} {
    } else {
      var x :| x in s;
      SumPick(s, x, f);
      SumPick(s, x, g);
      SumSame(s - {x}, f, g);
    }
  }

  lemma {:induction false} SumPlus<T>(s: set<T>, f: T -> int, g: T -> int, h: T -> int)
    requires forall x :: x in s ==> h(x) == f(x) + g(x)
    ensures Sum(s, h) == Sum(s, f) + Sum(s, g)
    decreases s
  {
    if s == {} {
    } else {
      var x :| x in s;
      SumPick(s, x, f);
      SumPick(s, x, g);
      SumPick(s, x, h);
      SumPlus(s - {x}, f, g, h);
    }
  }

  lemma {:induction false} SumScale<T>(s: set<T>, k: int, f: T -> int, h: T -> int)
    requires forall x :: x in s ==> h(x) == k * f(x)
    ensures Sum(s, h) == k * Sum(s, f)
    decreases s
  {
    if s == {} {
    } else {
      var x :| x in s;
      SumPick(s, x, f);
      SumPick(s, x, h);
      SumScale(s - {x}, k, f, h);
    }
  }

  /** The members of s that fall into part p. */
  ghost function Part<T, P>(s: set<T>, part: T -> P, p: P): set<T>
  {
    set x | x in s && part(x) == p
  }

  /** Summing part by part sums the whole. */
  lemma {:induction false} SumByPart<T, P>(s: set<T>, parts: set<P>, part: T -> P, f: T -> int, perPart: P -> int)
    requires forall x :: x in s ==> part(x) in parts
    requires forall p :: p in parts ==> perPart(p) == Sum(Part(s, part, p), f)
    ensures Sum(parts, perPart) == Sum(s, f)
    decreases parts
  {
    if parts == {} {
      assert s == {};
    } else {
      var p :| p in parts;
      var here := Part(s, part, p);
      var rest := s - here;
      SumPick(parts, p, perPart);
      forall q | q in parts - {p} ensures perPart(q) == Sum(Part(rest, part, q), f) {
        assert Part(s, part, q) == Part(rest, part, q);
      }
      SumByPart(rest, parts - {p}, part, f, perPart);
      SumUnion(here, rest, f);
      assert here + rest == s;
    }
  }

  function Elems<T>(s: seq<T>): (r: set<T>)
    ensures r == {} <==> s == []
  {
    var r := set x | x in s;
    assert s != [] ==> s[0] in r;
    r
  }

  ghost predicate NoDup<T>(s: seq<T>)
  {
    forall i, j :: 0 <= i < j < |s| ==> s[i] != s[j]
  }

  /** Every finite set can be listed without repetition. */
  lemma {:induction false} ListingExists<T>(s: set<T>) returns (l: seq<T>)
    ensures NoDup(l) && Elems(l) == s
    decreases s
  {
    l := [];
    if s == {} {
    } else {
      var x :| x in s;
      var rest := ListingExists(s - {x});
      l := [x] + rest;
      assert forall i :: 0 <= i < |rest| ==> rest[i] in Elems(rest);
      assert Elems(l) == {x} + Elems(rest);
    }
  }

  lemma {:induction false} SubsetSize<T>(a: set<T>, b: set<T>)
    requires a <= b
    ensures |a| <= |b|
    decreases b
  {
    if a == {} {
    } else {
      var x :| x in a;
      SubsetSize(a - {x}, b - {x});
    }
  }
}
