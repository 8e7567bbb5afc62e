/** The lexicographic order in which Rust compares strings, and sorting by it. */
module StringOrder {

  /** `a <= b`. Comparing code points gives the same order as comparing UTF-8 bytes. */
  predicate LexLe(a: string, b: string) {
    a == "" || (b != "" && (a[0] < b[0] || (a[0] == b[0] && LexLe(a[1..], b[1..]))))
  }

  lemma {:induction false} LexReflexive(a: string)
    ensures LexLe(a, a)
  {
    if a != "" { LexReflexive(a[1..]); }
  }

  lemma {:induction false} LexTotal(a: string, b: string)
    ensures LexLe(a, b) || LexLe(b, a)
  {
    if a != "" && b != "" { LexTotal(a[1..], b[1..]); }
  }

  lemma {:induction false} LexAntisymmetric(a: string, b: string)
    requires LexLe(a, b) && LexLe(b, a)
    ensures a == b
  {
    if a != "" && b != "" {
      LexAntisymmetric(a[1..], b[1..]);
      assert a == [a[0]] + a[1..] && b == [b[0]] + b[1..];
    }
  }

  lemma {:induction false} LexTransitive(a: string, b: string, c: string)
    requires LexLe(a, b) && LexLe(b, c)
    ensures LexLe(a, c)
  {
    if a != "" && b != "" && c != "" && a[0] == b[0] == c[0] {
      LexTransitive(a[1..], b[1..], c[1..]);
    }
  }

  predicate IsLeast(s: set<string>, x: string) {
    x in s && forall y :: y in s ==> LexLe(x, y)
  }

  lemma {:induction false} LeastExists(s: set<string>)
    requires s != {}
    ensures exists x :: IsLeast(s, x)
  {
    var e :| e in s;
    LexReflexive(e);
    if s == {e} {
      assert IsLeast(s, e);
    } else {
      LeastExists(s - {e});
      var x' :| IsLeast(s - {e}, x');
      LexTotal(e, x');
      LexReflexive(x');
      var x := if LexLe(e, x') then e else x';
      forall y | y in s ensures LexLe(x, y) {
        if y != e { LexTransitive(x, x', y); }
      }
      assert IsLeast(s, x);
    }
  }

  lemma LeastIsOne(s: set<string>)
    ensures forall x, y :: IsLeast(s, x) && IsLeast(s, y) ==> x == y
  {
    forall x, y | IsLeast(s, x) && IsLeast(s, y) ensures x == y { LexAntisymmetric(x, y); }
  }

  /** The least element of a non-empty finite set; there is only one. */
  function Least(s: set<string>): (x: string)
    requires s != {}
    ensures IsLeast(s, x)
  {
    LeastExists(s);
    LeastIsOne(s);
    var x :| x in s && IsLeast(s, x);
    x
  }

  ghost predicate Sorted(xs: seq<string>) {
    forall i, j :: 0 <= i < j < |xs| ==> LexLe(xs[i], xs[j])
  }

  ghost predicate Distinct<T>(xs: seq<T>) {
    forall i, j :: 0 <= i < j < |xs| ==> xs[i] != xs[j]
  }

  /** The elements of a set in ascending order, once each: what a `sort` (and `dedup`) leaves
      of the keys of a map, whatever order they were iterated in. */
  function SortedSeq(s: set<string>): (xs: seq<string>)
    ensures forall x :: x in xs <==> x in s
    ensures Sorted(xs) && Distinct(xs)
    ensures |xs| == |s|
  {
    if s == {} then []
    else
      var x := Least(s);
      [x] + SortedSeq(s - {x})
  }

  /** A sorted list without repetitions is determined by its set of elements. */
  lemma {:induction false} SortedUnique(xs: seq<string>, ys: seq<string>)
    requires Sorted(xs) && Distinct(xs) && Sorted(ys) && Distinct(ys)
    requires forall x :: x in xs <==> x in ys
    ensures xs == ys
  {
    if xs != [] { assert xs[0] in ys; }
    if ys != [] { assert ys[0] in xs; }
    if xs != [] {
      LexReflexive(xs[0]);
      LexReflexive(ys[0]);
      LexAntisymmetric(xs[0], ys[0]);
      forall x ensures x in xs[1..] <==> x in ys[1..] {
        assert x in xs <==> x == xs[0] || x in xs[1..];
        assert x in ys <==> x == ys[0] || x in ys[1..];
        assert xs[0] !in xs[1..] && ys[0] !in ys[1..];
      }
      SortedUnique(xs[1..], ys[1..]);
    }
  }
}
