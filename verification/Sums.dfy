/** Sums of integer maps over finite sets of keys. */
module Sums {
  import opened Common

  ghost function Sum(s: set<int>, f: map<int, int>): int
    requires s <= f.Keys
  {
    if s == {} then 0 else f[Pick(s)] + Sum(s - {Pick(s)}, f)
  }

  lemma {:induction false} SumRemove(s: set<int>, x: int, f: map<int, int>)
    requires s <= f.Keys && x in s
    ensures Sum(s, f) == f[x] + Sum(s - {x}, f)
  {
    var y := Pick(s);
    if y != x {
      SumRemove(s - {y}, x, f);
      SumRemove(s - {x}, y, f);
      assert s - {y} - {x} == s - {x} - {y};
    }
  }

  lemma {:induction false} SumDisjoint(a: set<int>, b: set<int>, f: map<int, int>)
    requires a <= f.Keys && b <= f.Keys && a !! b
    ensures Sum(a + b, f) == Sum(a, f) + Sum(b, f)
  {
    if a == {} {
      assert a + b == b;
    } else {
      var x := Pick(a);
      SumRemove(a, x, f);
      SumRemove(a + b, x, f);
      assert a + b - {x} == (a - {x}) + b;
      SumDisjoint(a - {x}, b, f);
    }
  }

  lemma SumSingle(x: int, f: map<int, int>)
    requires x in f
    ensures Sum({x}, f) == f[x]
  {
    SumRemove({x}, x, f);
    assert {x} - {x} == {};
  }
}
