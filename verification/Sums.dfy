/** Sums of an integer-valued function over a finite set of keys. */
module Sums {

  ghost function SumOver<K(!new)>(ks: set<K>, f: K -> int): int {
    if ks == {} then 0
    else
      var k :| k in ks;
      f(k) + SumOver(ks - {k}, f)
  }

  /** Any key can be taken out first. */
  lemma {:induction false} Pull<K(!new)>(ks: set<K>, f: K -> int, k: K)
    requires k in ks
    ensures SumOver(ks, f) == f(k) + SumOver(ks - {k}, f)
    decreases |ks|
  {
    var j :| j in ks && SumOver(ks, f) == f(j) + SumOver(ks - {j}, f);
    if j == k {
    } else {
      Pull(ks - {j}, f, k);
      Pull(ks - {k}, f, j);
      assert ks - {j} - {k} == ks - {k} - {j};
    }
  }

  lemma {:induction false} Agree<K(!new)>(ks: set<K>, f: K -> int, g: K -> int)
    requires forall k :: k in ks ==> f(k) == g(k)
    ensures SumOver(ks, f) == SumOver(ks, g)
    decreases |ks|
  {
    if ks == {} {
    } else {
      var k :| k in ks;
      Pull(ks, f, k);
      Pull(ks, g, k);
      Agree(ks - {k}, f, g);
    }
  }

  /** Two functions that agree except at one key. */
  lemma ChangeOne<K(!new)>(ks: set<K>, f: K -> int, g: K -> int, k: K)
    requires k in ks && forall j :: j in ks && j != k ==> f(j) == g(j)
    ensures SumOver(ks, g) == SumOver(ks, f) - f(k) + g(k)
  {
    Pull(ks, f, k);
    Pull(ks, g, k);
    Agree(ks - {k}, f, g);
  }

  lemma AddOne<K(!new)>(ks: set<K>, f: K -> int, g: K -> int, k: K)
    requires k !in ks && forall j :: j in ks ==> f(j) == g(j)
    ensures SumOver(ks + {k}, g) == SumOver(ks, f) + g(k)
  {
    Pull(ks + {k}, g, k);
    assert ks + {k} - {k} == ks;
    Agree(ks, f, g);
  }

  lemma {:induction false} NonNegative<K(!new)>(ks: set<K>, f: K -> int)
    requires forall k :: k in ks ==> f(k) >= 0
    ensures SumOver(ks, f) >= 0
    decreases |ks|
  {
    if ks == {} {
    } else {
      var k :| k in ks;
      Pull(ks, f, k);
      NonNegative(ks - {k}, f);
    }
  }
}
