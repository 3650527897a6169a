/** What progress is measured in: a product written as a recursion, so that bounds built from it
    stay linear, and totals over maps.
 */
module Measures {
  /** e * (b + 1) */
  function Weight(e: nat, b: nat): nat {
    if e == 0 then 0 else Weight(e - 1, b) + b + 1
  }

  lemma {:induction false} WeightGrows(f: nat, e: nat, b: nat)
    requires f < e
    ensures Weight(f, b) + b + 1 <= Weight(e, b)
  {
    if f < e - 1 { WeightGrows(f, e - 1, b); }
  }

  lemma {:induction false} WeightIsProduct(e: nat, b: nat)
    ensures Weight(e, b) == e * (b + 1)
  {
    if e > 0 {
      WeightIsProduct(e - 1, b);
      assert e * (b + 1) == (e - 1) * (b + 1) + (b + 1);
    }
  }

  // ---------- totals ----------

  ghost function SomeKey(w: map<string, nat>): (k: string)
    requires w != map[]
    ensures k in w
  {
    var k :| k in w; k
  }

  ghost function Total(w: map<string, nat>): nat {
    if w == map[] then 0
    else var k := SomeKey(w); w[k] + Total(w - {k})
  }

  lemma {:induction false} TotalAt(w: map<string, nat>, k: string)
    requires k in w
    ensures Total(w) == w[k] + Total(w - {k})
    decreases |w|
  {
    var j := SomeKey(w);
    if j != k {
      TotalAt(w - {j}, k);
      TotalAt(w - {k}, j);
      assert w - {j} - {k} == w - {k} - {j};
    }
  }

  lemma {:induction false} TotalMonotone(w: map<string, nat>, u: map<string, nat>)
    requires w.Keys == u.Keys && forall k :: k in w ==> w[k] <= u[k]
    ensures Total(w) <= Total(u)
    decreases |w|
  {
    if w == map[] {
      assert u.Keys == {};
      assert u == map[];
    } else {
      var k := SomeKey(w);
      TotalAt(u, k);
      TotalMonotone(w - {k}, u - {k});
    }
  }

  lemma {:induction false} TotalStrict(w: map<string, nat>, u: map<string, nat>, k: string)
    requires w.Keys == u.Keys && k in w && w[k] < u[k] && forall j :: j in w ==> w[j] <= u[j]
    ensures Total(w) < Total(u)
  {
    TotalAt(w, k);
    TotalAt(u, k);
    TotalMonotone(w - {k}, u - {k});
  }
}
