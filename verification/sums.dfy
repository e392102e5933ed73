/**
  Sums of real-valued terms over a finite set of symbols: the shape of the
  portfolio's folds over its position map, whose iteration order is
  unspecified.
*/
module Sums {

  /** The sum of `f` over `keys`, in no particular order. */
  ghost function SumOver(keys: set<string>, f: string -> real): real
    decreases |keys|
  {
    if keys == {} then 0.0
    else
      var k :| k in keys;
      f(k) + SumOver(keys - {k}, f)
  }

  /** Any element can be summed first: the sum does not depend on the order of the walk. */
  lemma {:induction false} SumOverRemove(keys: set<string>, f: string -> real, x: string)
    requires x in keys
    ensures SumOver(keys, f) == f(x) + SumOver(keys - {x}, f)
    decreases |keys|
  {
    var k :| k in keys && SumOver(keys, f) == f(k) + SumOver(keys - {k}, f);
    if k != x {
      SumOverRemove(keys - {k}, f, x);
      SumOverRemove(keys - {x}, f, k);
      assert keys - {k} - {x} == keys - {x} - {k};
    }
  }

  /** Terms that agree on `keys` have the same sum. */
  lemma {:induction false} SumOverCongruent(keys: set<string>, f: string -> real, g: string -> real)
    requires forall k | k in keys :: f(k) == g(k)
    ensures SumOver(keys, f) == SumOver(keys, g)
    decreases |keys|
  {
    if keys != {} {
      var k :| k in keys;
      SumOverRemove(keys, f, k);
      SumOverRemove(keys, g, k);
      SumOverCongruent(keys - {k}, f, g);
    }
  }

  /** The sum of a termwise sum is the sum of the sums. */
  lemma {:induction false} SumOverAdd(keys: set<string>, f: string -> real, g: string -> real, h: string -> real)
    requires forall k | k in keys :: f(k) == g(k) + h(k)
    ensures SumOver(keys, f) == SumOver(keys, g) + SumOver(keys, h)
    decreases |keys|
  {
    if keys != {} {
      var k :| k in keys;
      SumOverRemove(keys, f, k);
      SumOverRemove(keys, g, k);
      SumOverRemove(keys, h, k);
      SumOverAdd(keys - {k}, f, g, h);
    }
  }

  /**
    Changing one term: the sum over `keys + {x}` of `g`, where `g` agrees
    with `f` except at `x`, is the old sum with `x`'s old term (0 when `x`
    was not a key) replaced by the new one.
  */
  lemma SumOverUpdate(keys: set<string>, f: string -> real, g: string -> real, x: string)
    requires forall k | k in keys && k != x :: f(k) == g(k)
    requires x !in keys ==> f(x) == 0.0
    ensures SumOver(keys + {x}, g) == SumOver(keys, f) - f(x) + g(x)
  {
    var rest := keys - {x};
    SumOverRemove(keys + {x}, g, x);
    assert keys + {x} - {x} == rest;
    SumOverCongruent(rest, f, g);
    if x in keys {
      SumOverRemove(keys, f, x);
    } else {
      assert rest == keys;
    }
  }

  /** One step of a fold over `keys`: take out any key and add its term to the running total. */
  lemma FoldStep(keys: set<string>, f: string -> real, x: string, acc: real, term: real, total: real)
    requires x in keys && f(x) == term
    requires acc + SumOver(keys, f) == total
    ensures (acc + term) + SumOver(keys - {x}, f) == total
  {
    SumOverRemove(keys, f, x);
  }
}
