/** Sums over finite sets. */
module Sums {

  ghost function Pick<K>(s: set<K>): (k: K)
    requires s != {}
    ensures k in s
  {
    var k :| k in s;
    k
  }

  ghost function Sum<K>(s: set<K>, f: map<K, nat>): nat
    requires s <= f.Keys
    decreases |s|
  {
    if s == {} then 0 else
      var k := Pick(s);
      f[k] + Sum(s - {k}, f)
  }

  /** The order of summation does not matter. */
  lemma {:induction false} SumRemove<K>(s: set<K>, k: K, f: map<K, nat>)
    requires k in s && s <= f.Keys
    ensures Sum(s, f) == f[k] + Sum(s - {k}, f)
    decreases |s|
  {
    var c := Pick(s);
    if c != k {
      SumRemove(s - {c}, k, f);
      SumRemove(s - {k}, c, f);
      assert s - {c} - {k} == s - {k} - {c};
    }
  }

  lemma SumAdd<K>(s: set<K>, k: K, f: map<K, nat>)
    requires k !in s && s + {k} <= f.Keys
    ensures Sum(s + {k}, f) == Sum(s, f) + f[k]
  {
    SumRemove(s + {k}, k, f);
    assert s + {k} - {k} == s;
  }

  lemma {:induction false} SumMonotone<K>(s: set<K>, t: set<K>, f: map<K, nat>)
    requires s <= t <= f.Keys
    ensures Sum(s, f) <= Sum(t, f)
    decreases |s|
  {
    if s != {} {
      var c := Pick(s);
      SumRemove(t, c, f);
      SumMonotone(s - {c}, t - {c}, f);
    }
  }

  lemma {:induction false} SumAgrees<K>(s: set<K>, f: map<K, nat>, g: map<K, nat>)
    requires s <= f.Keys && s <= g.Keys
    requires forall k :: k in s ==> f[k] == g[k]
    ensures Sum(s, f) == Sum(s, g)
    decreases |s|
  {
    if s != {} {
      SumAgrees(s - {Pick(s)}, f, g);
    }
  }
}
