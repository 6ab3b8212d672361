/** Sizes of sets of node ids and finite sums over them, for potential functions; regrouping. */
module Sums {

  function One(b: bool): nat { if b then 1 else 0 }

  lemma HasElement(xs: set<int>)
    ensures xs == {} || exists x :: x in xs
  {
    if forall x :: x !in xs {
      assert xs == {};
    }
  }

  lemma Smaller(a: set<int>, b: set<int>)
    requires a <= b
    ensures |a| <= |b|
  {
    assert |b - a| == |b| - |a|;
  }

  ghost function Sum(f: int -> int, xs: set<int>): int
    decreases |xs|
  {
    if xs == {} then 0 else
    HasElement(xs);
    var x :| x in xs;
    f(x) + Sum(f, xs - {x})
  }

  lemma {:induction false} TakeOut(f: int -> int, xs: set<int>, y: int)
    requires y in xs
    ensures Sum(f, xs) == f(y) + Sum(f, xs - {y})
    decreases |xs|
  {
    var x :| x in xs && Sum(f, xs) == f(x) + Sum(f, xs - {x});
    if x != y {
      TakeOut(f, xs - {x}, y);
      TakeOut(f, xs - {y}, x);
      assert xs - {x} - {y} == xs - {y} - {x};
    }
  }

  lemma {:induction false} SameSum(f: int -> int, g: int -> int, xs: set<int>)
    requires forall x :: x in xs ==> f(x) == g(x)
    ensures Sum(f, xs) == Sum(g, xs)
    decreases |xs|
  {
    if x :| x in xs {
      TakeOut(f, xs, x);
      TakeOut(g, xs, x);
      SameSum(f, g, xs - {x});
    }
  }

  lemma ChangeAt(f: int -> int, g: int -> int, xs: set<int>, y: int)
    requires y in xs && forall x :: x in xs && x != y ==> f(x) == g(x)
    ensures Sum(g, xs) == Sum(f, xs) + g(y) - f(y)
  {
    TakeOut(f, xs, y);
    TakeOut(g, xs, y);
    SameSum(f, g, xs - {y});
  }

  lemma {:induction false} CountBelowSum(f: int -> int, xs: set<int>, counted: set<int>)
    requires counted <= xs
    requires forall x :: x in xs ==> f(x) >= if x in counted then 1 else 0
    ensures |counted| <= Sum(f, xs)
    decreases |xs|
  {
    if x :| x in xs {
      TakeOut(f, xs, x);
      CountBelowSum(f, xs - {x}, counted - {x});
    }
  }

  lemma Regroup<T>(a: seq<T>, b: seq<T>, c: seq<T>)
    ensures a + b + c == a + (b + c)
  {
  }

  lemma BagsRegroup<T>(a: multiset<T>, b: multiset<T>, c: multiset<T>)
    ensures a + b + c == a + (b + c)
  {
  }
}
