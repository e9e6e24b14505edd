/** Sums over finite sets. Go ranges over maps in an unspecified order; over the
    reals the order of addition does not matter, and `SumPeel` is the statement
    that lets any element be taken first. */
module Sums {

  ghost function Sum<T>(s: set<T>, f: T -> real): real
    decreases s
  {
    if s == {} then 0.0 else var x :| x in s; f(x) + Sum(s - {x}, f)
  }

  /** Any element of the set can be the first one added. */
  lemma {:induction false} SumPeel<T>(s: set<T>, f: T -> real, y: T)
    requires y in s
    ensures Sum(s, f) == f(y) + Sum(s - {y}, f)
    decreases s
  {
    var x :| x in s && Sum(s, f) == f(x) + Sum(s - {x}, f);
    if x != y {
      SumPeel(s - {x}, f, y);
      SumPeel(s - {y}, f, x);
      assert s - {x} - {y} == s - {y} - {x};
    }
  }

  /** One step of a loop that adds up `f` over a set, taking the elements
      in any order. */
  lemma SumStep<T>(todo: set<T>, f: T -> real, k: T, acc: real, term: real, total: real)
    requires k in todo && term == f(k)
    requires acc + Sum(todo, f) == total
    ensures (acc + term) + Sum(todo - {k}, f) == total
  {
    SumPeel(todo, f, k);
  }

  /** Adding a new element adds its term. */
  lemma SumInsert<T>(s: set<T>, f: T -> real, y: T)
    requires y !in s
    ensures Sum(s + {y}, f) == Sum(s, f) + f(y)
  {
    SumPeel(s + {y}, f, y);
    assert s + {y} - {y} == s;
  }

  /** Terms that vanish on the whole set sum to zero. */
  lemma {:induction false} SumOfZeros<T>(s: set<T>, f: T -> real)
    requires forall x | x in s :: f(x) == 0.0
    ensures Sum(s, f) == 0.0
    decreases s
  {
    if s != {} {
      var x :| x in s;
      SumPeel(s, f, x);
      SumOfZeros(s - {x}, f);
    }
  }

  /** Two term functions that agree on the set have the same sum. */
  lemma {:induction false} SumCongruent<T>(s: set<T>, f: T -> real, g: T -> real)
    requires forall x | x in s :: f(x) == g(x)
    ensures Sum(s, f) == Sum(s, g)
    decreases s
  {
    if s != {} {
      var x :| x in s;
      SumPeel(s, f, x);
      SumPeel(s, g, x);
      SumCongruent(s - {x}, f, g);
    }
  }
}
