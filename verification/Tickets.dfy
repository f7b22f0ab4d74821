/** Sorting tickets by id, keeping the lowest, and the outside-in order. */
module Tickets {

  datatype Ticket = Ticket(id: nat, attempt: nat)

  // ---------------------------------------------------------------- sorting

  predicate Ordered(ts: seq<Ticket>) {
    forall i, j :: 0 <= i < j < |ts| ==> ts[i].id <= ts[j].id
  }

  function Insert(t: Ticket, ts: seq<Ticket>): seq<Ticket> {
    if ts == [] then [t]
    else if t.id <= ts[0].id then [t] + ts
    else [ts[0]] + Insert(t, ts[1..])
  }

  /** A stable sort: of equal ids the earlier stays first. */
  function Sort(ts: seq<Ticket>): seq<Ticket> {
    if ts == [] then [] else Insert(ts[0], Sort(ts[1..]))
  }

  lemma {:induction false} InsertMembers(t: Ticket, ts: seq<Ticket>)
    ensures multiset(Insert(t, ts)) == multiset(ts) + multiset{t}
    ensures forall u :: u in Insert(t, ts) <==> u == t || u in ts
  {
    if ts != [] {
      assert ts == [ts[0]] + ts[1..];
      if t.id > ts[0].id {
        InsertMembers(t, ts[1..]);
      }
    }
  }

  lemma {:induction false} InsertOrders(t: Ticket, ts: seq<Ticket>)
    requires Ordered(ts)
    ensures Ordered(Insert(t, ts))
  {
    if ts != [] && t.id > ts[0].id {
      InsertOrders(t, ts[1..]);
      InsertMembers(t, ts[1..]);
      var rest := Insert(t, ts[1..]);
      forall j | 0 <= j < |rest|
        ensures ts[0].id <= rest[j].id
      {
        assert rest[j] in rest;
      }
    }
  }

  /** The sort is an ordered permutation. */
  lemma {:induction false} SortOrders(ts: seq<Ticket>)
    ensures Ordered(Sort(ts)) && multiset(Sort(ts)) == multiset(ts) && |Sort(ts)| == |ts|
  {
    if ts != [] {
      SortOrders(ts[1..]);
      InsertOrders(ts[0], Sort(ts[1..]));
      InsertMembers(ts[0], Sort(ts[1..]));
      assert ts == [ts[0]] + ts[1..];
      assert |multiset(Sort(ts))| == |multiset(ts)|;
    }
  }

  lemma {:induction false} SortedStays(ts: seq<Ticket>)
    requires Ordered(ts)
    ensures Sort(ts) == ts
  {
    if ts != [] {
      SortedStays(ts[1..]);
    }
  }

  function InsertAll(added: seq<Ticket>, ts: seq<Ticket>): seq<Ticket> {
    if added == [] then ts else Insert(added[0], InsertAll(added[1..], ts))
  }

  lemma {:induction false} SortConcat(a: seq<Ticket>, b: seq<Ticket>)
    ensures Sort(a + b) == InsertAll(a, Sort(b))
  {
    if a == [] {
      assert a + b == b;
    } else {
      assert (a + b)[1..] == a[1..] + b;
      SortConcat(a[1..], b);
    }
  }

  // ---------------------------------------------------------------- the lowest

  function Lowest(n: nat, ts: seq<Ticket>): seq<Ticket> {
    if |ts| <= n then ts else ts[..n]
  }

  lemma LowestCons(n: nat, t: Ticket, ts: seq<Ticket>)
    requires n > 0
    ensures Lowest(n, [t] + ts) == [t] + Lowest(n - 1, ts)
  {
  }

  /** What is cut off can never come back. */
  lemma {:induction false} LowestInsert(n: nat, t: Ticket, ts: seq<Ticket>)
    ensures Lowest(n, Insert(t, Lowest(n, ts))) == Lowest(n, Insert(t, ts))
  {
    if n > 0 && ts != [] {
      var rest := ts[1..];
      assert ts == [ts[0]] + rest;
      LowestCons(n, ts[0], rest);
      if t.id > ts[0].id {
        LowestInsert(n - 1, t, rest);
        LowestCons(n, ts[0], Insert(t, rest));
        LowestCons(n, ts[0], Insert(t, Lowest(n - 1, rest)));
        assert Lowest(n, ts)[1..] == Lowest(n - 1, rest);
        hide Lowest;
      }
    }
  }

  lemma {:induction false} LowestInsertAll(n: nat, added: seq<Ticket>, ts: seq<Ticket>)
    ensures Lowest(n, InsertAll(added, Lowest(n, ts))) == Lowest(n, InsertAll(added, ts))
  {
    if added != [] {
      LowestInsertAll(n, added[1..], ts);
      LowestInsert(n, added[0], InsertAll(added[1..], ts));
      LowestInsert(n, added[0], InsertAll(added[1..], Lowest(n, ts)));
    } else {
      assert Lowest(n, Lowest(n, ts)) == Lowest(n, ts);
    }
  }

  /** Keeping the lowest after each step is keeping the lowest of all. */
  lemma LowestOfLowest(n: nat, added: seq<Ticket>, past: seq<Ticket>)
    ensures Lowest(n, Sort(added + Lowest(n, Sort(past)))) == Lowest(n, Sort(added + past))
  {
    SortOrders(past);
    SortedStays(Lowest(n, Sort(past)));
    SortConcat(added, Lowest(n, Sort(past)));
    SortConcat(added, past);
    LowestInsertAll(n, added, Sort(past));
  }

  /** `kept` and `cut` together are `all`, and nothing cut has a lower id than anything kept. */
  ghost predicate LowestPart(kept: seq<Ticket>, cut: seq<Ticket>, all: seq<Ticket>) {
    multiset(kept) + multiset(cut) == multiset(all) && forall a, c :: a in kept && c in cut ==> a.id <= c.id
  }

  /** The lowest `n` are as many as there are, in order, and no ticket left out has a lower id. */
  lemma LowestAreLowest(n: nat, ts: seq<Ticket>)
    ensures var kept := Lowest(n, Sort(ts));
            && |kept| == (if |ts| <= n then |ts| else n) && Ordered(kept)
            && exists cut :: LowestPart(kept, cut, ts)
  {
    SortOrders(ts);
    CutIsHigher(n, Sort(ts), ts);
    hide Sort, LowestPart;
  }

  lemma CutIsHigher(n: nat, sorted: seq<Ticket>, ts: seq<Ticket>)
    requires Ordered(sorted) && multiset(sorted) == multiset(ts)
    ensures Ordered(Lowest(n, sorted)) && exists cut :: LowestPart(Lowest(n, sorted), cut, ts)
  {
    var kept := Lowest(n, sorted);
    var cut := sorted[|kept|..];
    assert sorted == kept + cut;
    assert LowestPart(kept, cut, ts);
  }

  // ---------------------------------------------------------------- ids that occur twice

  /** How many tickets have a lower id. */
  function Below(ts: seq<Ticket>, id: nat): (n: nat)
    ensures n <= |ts|
  {
    if ts == [] then 0 else (if ts[0].id < id then 1 else 0) + Below(ts[1..], id)
  }

  lemma {:induction false} BelowConcat(a: seq<Ticket>, b: seq<Ticket>, id: nat)
    ensures Below(a + b, id) == Below(a, id) + Below(b, id)
  {
    if a == [] {
      assert a + b == b;
    } else {
      assert (a + b)[1..] == a[1..] + b;
      BelowConcat(a[1..], b, id);
    }
  }

  lemma {:induction false} BelowInsert(t: Ticket, ts: seq<Ticket>, id: nat)
    ensures Below(Insert(t, ts), id) == Below(ts, id) + if t.id < id then 1 else 0
  {
    if ts != [] && t.id > ts[0].id {
      BelowInsert(t, ts[1..], id);
    }
  }

  lemma {:induction false} BelowSort(ts: seq<Ticket>, id: nat)
    ensures Below(Sort(ts), id) == Below(ts, id)
  {
    if ts != [] {
      BelowSort(ts[1..], id);
      BelowInsert(ts[0], Sort(ts[1..]), id);
    }
  }

  /** In an ordered list the lower ids are the first ones. */
  lemma {:induction false} BelowIsPlace(ts: seq<Ticket>, id: nat, i: nat)
    requires Ordered(ts) && i < |ts|
    ensures ts[i].id < id <==> i < Below(ts, id)
  {
    if i > 0 {
      BelowIsPlace(ts[1..], id, i - 1);
    } else if ts[0].id >= id {
      NoneBelow(ts, id);
    }
  }

  lemma {:induction false} NoneBelow(ts: seq<Ticket>, id: nat)
    requires forall i :: 0 <= i < |ts| ==> ts[i].id >= id
    ensures Below(ts, id) == 0
  {
    if ts != [] {
      NoneBelow(ts[1..], id);
    }
  }

  predicate DistinctIds(ts: seq<Ticket>) {
    forall i, j :: 0 <= i < j < |ts| ==> ts[i].id != ts[j].id
  }

  predicate HasId(ts: seq<Ticket>, id: nat) {
    exists t :: t in ts && t.id == id
  }

  /** How often an id occurs: not at all, or once where ids are distinct. */
  lemma {:induction false} Occurs(ts: seq<Ticket>, id: nat)
    ensures Below(ts, id) <= Below(ts, id + 1)
    ensures !HasId(ts, id) ==> Below(ts, id + 1) == Below(ts, id)
    ensures DistinctIds(ts) ==> Below(ts, id + 1) <= Below(ts, id) + 1
  {
    if ts != [] {
      Occurs(ts[1..], id);
      assert HasId(ts[1..], id) ==> HasId(ts, id);
      if ts[0].id == id {
        assert ts[0] in ts;
        if DistinctIds(ts) {
          assert !HasId(ts[1..], id);
        }
      }
    }
  }

  /** Two neighbours share an id, and both come within the lowest `n` when merged with the others. */
  predicate TwinsKept(n: nat, added: seq<Ticket>, others: seq<Ticket>) {
    exists k :: 0 <= k < |added| - 1 && added[k].id == added[k + 1].id && k + 2 + Below(others, added[k].id) <= n
  }

  /**
   Adding ordered tickets, none with an id there already, makes the lowest have an id twice
   exactly if twins are kept.
  */
  lemma LowestDistinctExactly(n: nat, added: seq<Ticket>, others: seq<Ticket>)
    requires Ordered(added) && DistinctIds(others)
    requires forall t :: t in added ==> !HasId(others, t.id)
    ensures DistinctIds(Lowest(n, Sort(added + others))) <==> !TwinsKept(n, added, others)
  {
    var all := Sort(added + others);
    SortOrders(added + others);
    hide Sort, TwinsKept;
    if !DistinctIds(Lowest(n, all)) {
      TwinsAmongAdded(n, added, others);
    }
    if TwinsKept(n, added, others) {
      TwinsStay(n, added, others);
    }
  }

  /** An id stands just where the tickets with a lower one end. */
  lemma IdAt(ts: seq<Ticket>, id: nat, i: nat)
    requires Ordered(ts) && i < |ts|
    ensures ts[i].id == id <==> Below(ts, id) <= i < Below(ts, id + 1)
  {
    BelowIsPlace(ts, id, i);
    BelowIsPlace(ts, id + 1, i);
  }

  lemma CountsAdd(added: seq<Ticket>, others: seq<Ticket>, id: nat)
    ensures Below(Sort(added + others), id) == Below(added, id) + Below(others, id)
  {
    BelowSort(added + others, id);
    BelowConcat(added, others, id);
  }

  lemma TwinsAt(n: nat, all: seq<Ticket>, p: nat)
    requires p + 1 < |all| && p + 1 < n && all[p].id == all[p + 1].id
    ensures !DistinctIds(Lowest(n, all))
  {
    assert Lowest(n, all)[p].id == Lowest(n, all)[p + 1].id;
  }

  lemma TwinsStay(n: nat, added: seq<Ticket>, others: seq<Ticket>)
    requires Ordered(added) && TwinsKept(n, added, others)
    ensures !DistinctIds(Lowest(n, Sort(added + others)))
  {
    hide Sort, Below, Ordered, DistinctIds, HasId, Lowest;
    var k :| 0 <= k < |added| - 1 && added[k].id == added[k + 1].id && k + 2 + Below(others, added[k].id) <= n;
    var all, id := Sort(added + others), added[k].id;
    SortOrders(added + others);
    CountsAdd(added, others, id);
    CountsAdd(added, others, id + 1);
    IdAt(added, id, k);
    IdAt(added, id, k + 1);
    Occurs(others, id);
    var p := k + Below(others, id);
    IdAt(all, id, p);
    IdAt(all, id, p + 1);
    TwinsAt(n, all, p);
  }

  lemma NeighbourTwins(n: nat, all: seq<Ticket>) returns (i: nat)
    requires Ordered(all) && !DistinctIds(Lowest(n, all))
    ensures i + 1 < |all| && i + 1 < n && all[i].id == all[i + 1].id
  {
    var j: nat;
    i, j :| i < j < |Lowest(n, all)| && Lowest(n, all)[i].id == Lowest(n, all)[j].id;
  }

  lemma TwinsAmongAdded(n: nat, added: seq<Ticket>, others: seq<Ticket>)
    requires Ordered(added) && DistinctIds(others)
    requires forall t :: t in added ==> !HasId(others, t.id)
    requires !DistinctIds(Lowest(n, Sort(added + others)))
    ensures TwinsKept(n, added, others)
  {
    var all := Sort(added + others);
    SortOrders(added + others);
    hide Sort, Below, Ordered, HasId, DistinctIds;
    var i := NeighbourTwins(n, all);
    var id := all[i].id;
    var k := Below(added, id);
    IdAt(all, id, i);
    IdAt(all, id, i + 1);
    CountsAdd(added, others, id);
    CountsAdd(added, others, id + 1);
    TwiceAmongAdded(added, others, id);
    IdAt(added, id, k);
    IdAt(added, id, k + 1);
    assert added[k].id == id && added[k + 1].id == id;
  }

  /** An id that occurs twice in all occurs twice among those added, and not among the others. */
  lemma TwiceAmongAdded(added: seq<Ticket>, others: seq<Ticket>, id: nat)
    requires DistinctIds(others)
    requires forall t :: t in added ==> !HasId(others, t.id)
    requires Below(added, id) + Below(others, id) + 2 <= Below(added, id + 1) + Below(others, id + 1)
    ensures Below(added, id) + 2 <= Below(added, id + 1) && Below(others, id + 1) == Below(others, id)
  {
    Occurs(others, id);
    Occurs(added, id);
    if HasId(added, id) {
      var t :| t in added && t.id == id;
      assert !HasId(others, id);
    }
  }

  // ---------------------------------------------------------------- outside in

  function Reversed<T>(items: seq<T>): (r: seq<T>)
    ensures |r| == |items| && forall i :: 0 <= i < |r| ==> r[i] == items[|items| - 1 - i]
  {
    if items == [] then [] else Reversed(items[1..]) + [items[0]]
  }

  /** The pairs of two lists, as long as the shorter, one after the other. */
  function Zipped<T>(a: seq<T>, b: seq<T>): seq<T> {
    if a == [] || b == [] then [] else [a[0], b[0]] + Zipped(a[1..], b[1..])
  }

  /** The first half, each followed by its counterpart from the end; an odd one in the middle is lost. */
  function OutsideIn<T>(items: seq<T>): seq<T> {
    Zipped(items[..|items| / 2], Reversed(items[|items| / 2..]))
  }

  lemma {:induction false} ZippedAt<T>(a: seq<T>, b: seq<T>)
    requires |a| <= |b|
    ensures |Zipped(a, b)| == 2 * |a|
    ensures forall i :: 0 <= i < |a| ==> Zipped(a, b)[2 * i] == a[i] && Zipped(a, b)[2 * i + 1] == b[i]
  {
    if a != [] {
      var rest := Zipped(a[1..], b[1..]);
      ZippedAt(a[1..], b[1..]);
      forall i | 0 <= i < |a|
        ensures Zipped(a, b)[2 * i] == a[i] && Zipped(a, b)[2 * i + 1] == b[i]
      {
        if i > 0 {
          assert Zipped(a, b)[2 * i] == rest[2 * (i - 1)] && Zipped(a, b)[2 * i + 1] == rest[2 * (i - 1) + 1];
        }
      }
    }
  }

  /** First, last, second, second to last, and so on. */
  lemma OutsideInAt<T>(items: seq<T>)
    ensures |OutsideIn(items)| == |items| / 2 * 2
    ensures forall i :: 0 <= i < |items| / 2 ==>
              OutsideIn(items)[2 * i] == items[i] && OutsideIn(items)[2 * i + 1] == items[|items| - 1 - i]
  {
    var half := |items| / 2;
    var end := Reversed(items[half..]);
    ZippedAt(items[..half], end);
    forall i | 0 <= i < half
      ensures end[i] == items[|items| - 1 - i]
    {
    }
  }

  lemma OutsideInPeels<T>(items: seq<T>)
    requires |items| >= 2
    ensures OutsideIn(items) == [items[0], items[|items| - 1]] + OutsideIn(items[1..|items| - 1])
  {
    var inner, n := items[1..|items| - 1], |items|;
    var a, b := items[..n / 2], Reversed(items[n / 2..]);
    assert b[1..] == Reversed(inner[|inner| / 2..]);
    assert a[1..] == inner[..|inner| / 2];
  }

  lemma {:induction false} OutsideInPermutes<T>(items: seq<T>)
    requires |items| % 2 == 0
    ensures multiset(OutsideIn(items)) == multiset(items)
    decreases |items|
  {
    hide *;
    if |items| < 2 {
      OutsideInOfNone(items);
    } else {
      var inner := items[1..|items| - 1];
      OutsideInPermutes(inner);
      OutsideInPeels(items);
      MultisetOfEnds(items[0], items[|items| - 1], inner, OutsideIn(inner));
      assert items == [items[0]] + inner + [items[|items| - 1]];
    }
  }

  lemma OutsideInOfNone<T>(items: seq<T>)
    requires items == []
    ensures OutsideIn(items) == []
  {
  }

  lemma MultisetOfEnds<T>(first: T, last: T, inner: seq<T>, mixed: seq<T>)
    requires multiset(mixed) == multiset(inner)
    ensures multiset([first, last] + mixed) == multiset([first] + inner + [last])
  {
  }

  /** It is a permutation exactly for an even number of items. */
  lemma OutsideInPermutesExactly<T>(items: seq<T>)
    ensures multiset(OutsideIn(items)) == multiset(items) <==> |items| % 2 == 0
  {
    if |items| % 2 == 1 {
      OutsideInAt(items);
      assert |multiset(OutsideIn(items))| == |items| - 1;
      assert |multiset(items)| == |items|;
    } else {
      OutsideInPermutes(items);
    }
  }
}
