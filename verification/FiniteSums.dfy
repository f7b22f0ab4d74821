/** Sums over lists, sets and maps. */
module FiniteSums {

  // ---------------------------------------------------------------- sorted sets of numbers

  lemma {:induction false} HasMax(s: set<nat>)
    requires s != {}
    ensures exists m :: m in s && forall x :: x in s ==> x <= m
    decreases |s|
  {
    var y :| y in s;
    var rest := s - {y};
    if rest == {} {
      assert s == {y};
    } else {
      HasMax(rest);
      var m :| m in rest && forall x :: x in rest ==> x <= m;
      var top := if m < y then y else m;
      assert top in s && forall x :: x in s ==> x == y || x in rest;
    }
  }

  function Max(s: set<nat>): (m: nat)
    requires s != {}
    ensures m in s && forall x :: x in s ==> x <= m
  {
    HasMax(s);
    var m :| m in s && forall x :: x in s ==> x <= m;
    m
  }

  /** The members in increasing order. */
  function Sorted(s: set<nat>): (r: seq<nat>)
    ensures forall x :: x in r <==> x in s
    ensures forall i, j :: 0 <= i < j < |r| ==> r[i] < r[j]
    decreases |s|
  {
    if s == {} then []
    else
      var m := Max(s);
      Sorted(s - {m}) + [m]
  }

  // ---------------------------------------------------------------- sums

  function Total(ids: seq<nat>, f: nat -> nat): nat {
    if ids == [] then 0 else Total(ids[..|ids| - 1], f) + f(ids[|ids| - 1])
  }

  predicate Distinct(ids: seq<nat>) {
    forall i, j :: 0 <= i < j < |ids| ==> ids[i] != ids[j]
  }

  /** Raising one addend raises the total by as much, if the addend occurs. */
  lemma {:induction false} TotalBump(ids: seq<nat>, f: nat -> nat, g: nat -> nat, x: nat, d: nat)
    requires Distinct(ids)
    requires forall y :: y in ids && y != x ==> g(y) == f(y)
    requires g(x) == f(x) + d
    ensures Total(ids, g) == Total(ids, f) + if x in ids then d else 0
  {
    if ids != [] {
      var n := |ids| - 1;
      TotalBump(ids[..n], f, g, x, d);
      assert ids == ids[..n] + [ids[n]];
    }
  }

  lemma {:induction false} TotalPlus(ids: seq<nat>, f: nat -> nat, g: nat -> nat, h: nat -> nat)
    requires forall y :: y in ids ==> h(y) == f(y) + g(y)
    ensures Total(ids, h) == Total(ids, f) + Total(ids, g)
  {
    if ids != [] {
      assert ids == ids[..|ids| - 1] + [ids[|ids| - 1]];
      TotalPlus(ids[..|ids| - 1], f, g, h);
    }
  }

  lemma {:induction false} TotalZero(ids: seq<nat>, f: nat -> nat)
    requires forall y :: y in ids ==> f(y) == 0
    ensures Total(ids, f) == 0
  {
    if ids != [] {
      assert ids == ids[..|ids| - 1] + [ids[|ids| - 1]];
      TotalZero(ids[..|ids| - 1], f);
    }
  }

  function Lookup(m: map<nat, nat>, x: nat): nat {
    if x in m then m[x] else 0
  }

  function SumValues(m: map<nat, nat>): nat
    decreases |m|
  {
    if m == map[] then 0
    else
      var k := Max(m.Keys);
      assert |m - {k}| < |m| by {
        assert (m - {k}).Keys == m.Keys - {k};
        assert |m.Keys| == |m| && |(m - {k}).Keys| == |m - {k}|;
      }
      SumValues(m - {k}) + m[k]
  }

  /** The values of a map add up along any list that has its keys once. */
  lemma {:induction false} SumValuesIsTotal(m: map<nat, nat>, ids: seq<nat>)
    requires Distinct(ids) && forall k :: k in m ==> k in ids
    ensures Total(ids, x => Lookup(m, x)) == SumValues(m)
    decreases |m|
  {
    if m == map[] {
      TotalZero(ids, x => Lookup(m, x));
    } else {
      var k := Max(m.Keys);
      assert (m - {k}).Keys == m.Keys - {k};
      assert |m.Keys| == |m| && |(m - {k}).Keys| == |m - {k}|;
      SumValuesIsTotal(m - {k}, ids);
      TotalBump(ids, x => Lookup(m - {k}, x), x => Lookup(m, x), k, m[k]);
    }
  }

  /** Adding maps key by key adds their sums. */
  function AddMaps(a: map<nat, nat>, b: map<nat, nat>): map<nat, nat> {
    map x | x in a.Keys + b.Keys :: Lookup(a, x) + Lookup(b, x)
  }

  lemma SumOfAddMaps(a: map<nat, nat>, b: map<nat, nat>)
    ensures SumValues(AddMaps(a, b)) == SumValues(a) + SumValues(b)
  {
    hide Sorted, SumValues, Total;
    var ids := Sorted(a.Keys + b.Keys);
    SumValuesIsTotal(a, ids);
    SumValuesIsTotal(b, ids);
    SumValuesIsTotal(AddMaps(a, b), ids);
    TotalPlus(ids, x => Lookup(a, x), x => Lookup(b, x), x => Lookup(AddMaps(a, b), x));
  }

  lemma SumOfFresh(m: map<nat, nat>, k: nat, v: nat)
    requires k !in m
    ensures SumValues(m[k := v]) == SumValues(m) + v
  {
    hide Sorted, SumValues, Total;
    var ids := Sorted(m.Keys + {k});
    SumValuesIsTotal(m, ids);
    SumValuesIsTotal(m[k := v], ids);
    TotalBump(ids, x => Lookup(m, x), x => Lookup(m[k := v], x), k, v);
  }

  lemma SumOfRemoved(m: map<nat, nat>, k: nat)
    requires k in m
    ensures SumValues(m) == SumValues(m - {k}) + m[k]
  {
    SumOfFresh(m - {k}, k, m[k]);
    assert (m - {k})[k := m[k]] == m;
  }

  // ---------------------------------------------------------------- sums over sets

  ghost function SumOver<K(!new)>(s: set<K>, f: K -> nat): nat {
    if s == {} then 0
    else
      var x :| x in s;
      SumOver(s - {x}, f) + f(x)
  }

  /** The sum does not depend on the order in which the members are taken. */
  lemma {:induction false} SumOverRemove<K(!new)>(s: set<K>, f: K -> nat, x: K)
    requires x in s
    ensures SumOver(s, f) == SumOver(s - {x}, f) + f(x)
    decreases |s|
  {
    var y :| y in s && SumOver(s, f) == SumOver(s - {y}, f) + f(y);
    if x != y {
      SumOverRemove(s - {y}, f, x);
      SumOverRemove(s - {x}, f, y);
      assert s - {y} - {x} == s - {x} - {y};
    }
  }

  lemma SumOverAdd<K(!new)>(s: set<K>, f: K -> nat, x: K)
    requires x !in s
    ensures SumOver(s + {x}, f) == SumOver(s, f) + f(x)
  {
    SumOverRemove(s + {x}, f, x);
    assert s + {x} - {x} == s;
  }

  lemma {:induction false} SumOverSame<K(!new)>(s: set<K>, f: K -> nat, g: K -> nat)
    requires forall x :: x in s ==> f(x) == g(x)
    ensures SumOver(s, f) == SumOver(s, g)
    decreases |s|
  {
    if s != {} {
      var x :| x in s;
      SumOverRemove(s, f, x);
      SumOverRemove(s, g, x);
      SumOverSame(s - {x}, f, g);
    }
  }
}
