/** The queue-editing and priority functions over work packages that wait for others. */
module AccumulationQueue {
  import opened Octets

  /** A work report; `dependencies` joins its prerequisites and its segment-root lookups. */
  datatype Report = Report(hash: Hash, core: nat, prerequisites: set<Hash>, lookups: set<Hash>, gas: nat) {
    function Dependencies(): set<Hash> {
      prerequisites + lookups
    }
  }

  /** A report with the dependencies it still waits for. */
  datatype Item = Item(report: Report, waits: set<Hash>)

  function WithDependencies(r: Report): Item {
    Item(r, r.Dependencies())
  }

  function Hashes(rs: seq<Report>): set<Hash> {
    set r | r in rs :: r.hash
  }

  function Names(q: seq<Item>): set<Hash> {
    set i | i in q :: i.report.hash
  }

  // ---------------------------------------------------------------- editing

  /** Drops what was accumulated, and no longer waits for it. */
  function EditQueue(q: seq<Item>, accumulated: set<Hash>): (r: seq<Item>)
    ensures |r| <= |q|
    ensures forall i :: i in r ==> i.report.hash !in accumulated && i.waits !! accumulated
  {
    if q == [] then []
    else
      var rest := EditQueue(q[..|q| - 1], accumulated);
      var last := q[|q| - 1];
      if last.report.hash in accumulated then rest else rest + [Item(last.report, last.waits - accumulated)]
  }

  method Edit(q: seq<Item>, accumulated: seq<Hash>) returns (modified: seq<Item>)
    ensures modified == EditQueue(q, set h | h in accumulated)
  {
    modified := [];
    for n := 0 to |q|
      invariant modified == EditQueue(q[..n], set h | h in accumulated)
    {
      assert q[..n + 1][..n] == q[..n];
      if q[n].report.hash !in accumulated {
        var waits := q[n].waits - set h | h in accumulated;
        modified := modified + [Item(q[n].report, waits)];
      }
    }
    assert q[..|q|] == q;
  }

  /** An item survives editing exactly if it was not accumulated, with what it still waits for. */
  lemma {:induction false} EditedFrom(q: seq<Item>, accumulated: set<Hash>)
    ensures forall i :: i in EditQueue(q, accumulated) ==>
              exists j :: j in q && j.report == i.report && i.waits == j.waits - accumulated
    ensures forall j :: j in q && j.report.hash !in accumulated ==>
              Item(j.report, j.waits - accumulated) in EditQueue(q, accumulated)
    ensures Names(EditQueue(q, accumulated)) == Names(q) - accumulated
  {
    if q != [] {
      var m := |q| - 1;
      EditedFrom(q[..m], accumulated);
      assert q == q[..m] + [q[m]];
      var r := EditQueue(q, accumulated);
      forall i | i in r
        ensures exists j :: j in q && j.report == i.report && i.waits == j.waits - accumulated
      {
        if i in EditQueue(q[..m], accumulated) {
          var j :| j in q[..m] && j.report == i.report && i.waits == j.waits - accumulated;
          assert j in q;
        } else {
          assert q[m] in q;
        }
      }
      forall j | j in q && j.report.hash !in accumulated
        ensures Item(j.report, j.waits - accumulated) in r
      {
      }
      forall h | h in Names(q) - accumulated
        ensures h in Names(r)
      {
        var j :| j in q && j.report.hash == h;
        assert Item(j.report, j.waits - accumulated) in r;
      }
    }
  }

  // ---------------------------------------------------------------- priority

  /** The reports that wait for nothing, in queue order. */
  function Unblocked(q: seq<Item>): (g: seq<Report>)
    ensures |g| <= |q|
  {
    if q == [] then []
    else Unblocked(q[..|q| - 1]) + if q[|q| - 1].waits == {} then [q[|q| - 1].report] else []
  }

  lemma {:induction false} UnblockedAre(q: seq<Item>)
    ensures forall r :: r in Unblocked(q) <==> Item(r, {}) in q
  {
    if q != [] {
      UnblockedAre(q[..|q| - 1]);
      assert q == q[..|q| - 1] + [q[|q| - 1]];
    }
  }

  lemma {:induction false} EditShrinks(q: seq<Item>, accumulated: set<Hash>)
    ensures |EditQueue(q, accumulated)| <= |q|
    ensures Names(q) * accumulated != {} ==> |EditQueue(q, accumulated)| < |q|
  {
    if q != [] {
      EditShrinks(q[..|q| - 1], accumulated);
      assert q == q[..|q| - 1] + [q[|q| - 1]];
      if Names(q) * accumulated != {} {
        var h :| h in Names(q) * accumulated;
        var i :| i in q && i.report.hash == h;
        if i in q[..|q| - 1] {
          assert h in Names(q[..|q| - 1]) * accumulated;
        }
      }
    }
  }

  lemma PriorityShrinks(q: seq<Item>)
    requires Unblocked(q) != []
    ensures |EditQueue(q, Hashes(Unblocked(q)))| < |q|
  {
    var g := Unblocked(q);
    UnblockedAre(q);
    assert g[0] in g;
    assert Item(g[0], {}) in q;
    assert g[0].hash in Names(q) * Hashes(g);
    EditShrinks(q, Hashes(g));
  }

  /** What can be accumulated now: the unblocked, then whatever that unblocks, and so on. */
  function PriorityQueue(q: seq<Item>): seq<Report>
    decreases |q|
  {
    var g := Unblocked(q);
    if g == [] then []
    else
      PriorityShrinks(q);
      g + PriorityQueue(EditQueue(q, Hashes(g)))
  }

  // ---------------------------------------------------------------- what the priority queue is

  /** `rs` takes items of the queue, each after everything it waits for. */
  ghost predicate InOrder(q: seq<Item>, rs: seq<Report>) {
    forall n :: 0 <= n < |rs| ==> Supported(q, rs, n)
  }

  ghost predicate Supported(q: seq<Item>, rs: seq<Report>, n: nat)
    requires n < |rs|
  {
    exists i :: i in q && i.report == rs[n] && i.waits <= Hashes(rs[..n])
  }

  lemma NothingSupported(q: seq<Item>, rs: seq<Report>)
    requires Unblocked(q) == [] && rs != []
    ensures !Supported(q, rs, 0)
  {
    UnblockedAre(q);
    forall i | i in q && i.report == rs[0]
      ensures !(i.waits <= Hashes(rs[..0]))
    {
      assert i.waits == {} ==> i == Item(i.report, {});
    }
  }

  lemma HashesOfConcat(a: seq<Report>, b: seq<Report>)
    ensures Hashes(a + b) == Hashes(a) + Hashes(b)
  {
    forall h | h in Hashes(a) + Hashes(b)
      ensures h in Hashes(a + b)
    {
      if h in Hashes(a) {
        var r :| r in a && r.hash == h;
        assert r in a + b;
      } else {
        var r :| r in b && r.hash == h;
        assert r in a + b;
      }
    }
  }

  /** Dependency order: every report comes after all that its item waits for. */
  lemma {:induction false} PriorityIsInOrder(q: seq<Item>)
    ensures InOrder(q, PriorityQueue(q))
    decreases |q|
  {
    var g := Unblocked(q);
    if g != [] {
      hide Supported, EditQueue, Hashes, Unblocked;
      PriorityShrinks(q);
      var e := EditQueue(q, Hashes(g));
      var rest := PriorityQueue(e);
      PriorityIsInOrder(e);
      var rs := g + rest;
      forall n | 0 <= n < |rs|
        ensures Supported(q, rs, n)
      {
        if n < |g| {
          UnblockedIsSupported(q, rest, n);
        } else {
          LaterIsSupported(q, g, rest, n - |g|);
        }
      }
    }
  }

  lemma UnblockedIsSupported(q: seq<Item>, rest: seq<Report>, n: nat)
    requires n < |Unblocked(q)|
    ensures Supported(q, Unblocked(q) + rest, n)
  {
    UnblockedAre(q);
    assert Unblocked(q)[n] in Unblocked(q);
    assert Item(Unblocked(q)[n], {}) in q;
  }

  lemma LaterIsSupported(q: seq<Item>, g: seq<Report>, rest: seq<Report>, k: nat)
    requires k < |rest| && Supported(EditQueue(q, Hashes(g)), rest, k)
    ensures Supported(q, g + rest, |g| + k)
  {
    hide EditQueue, Hashes, Names;
    EditedFrom(q, Hashes(g));
    var i :| i in EditQueue(q, Hashes(g)) && i.report == rest[k] && i.waits <= Hashes(rest[..k]);
    var j :| j in q && j.report == i.report && i.waits == j.waits - Hashes(g);
    assert (g + rest)[..|g| + k] == g + rest[..k];
    HashesOfConcat(g, rest[..k]);
  }

  /** Maximality: whatever can be ordered at all is named by the result. */
  lemma {:induction false} PriorityIsLargest(q: seq<Item>, rs: seq<Report>)
    requires InOrder(q, rs)
    ensures Hashes(rs) <= Hashes(PriorityQueue(q))
    decreases |q|
  {
    var g := Unblocked(q);
    UnblockedAre(q);
    if g == [] {
      if rs != [] {
        NothingSupported(q, rs);
      }
    } else {
      PriorityShrinks(q);
      var e := EditQueue(q, Hashes(g));
      var later := Without(rs, Hashes(g));
      LaterIsInOrder(q, rs, Hashes(g));
      PriorityIsLargest(e, later);
      WithoutHashes(rs, Hashes(g));
      HashesOfConcat(g, PriorityQueue(e));
    }
  }

  function Without(rs: seq<Report>, done: set<Hash>): seq<Report> {
    if rs == [] then []
    else Without(rs[..|rs| - 1], done) + if rs[|rs| - 1].hash in done then [] else [rs[|rs| - 1]]
  }

  lemma {:induction false} WithoutHashes(rs: seq<Report>, done: set<Hash>)
    ensures Hashes(Without(rs, done)) == Hashes(rs) - done
  {
    if rs != [] {
      var m := |rs| - 1;
      WithoutHashes(rs[..m], done);
      assert rs == rs[..m] + [rs[m]];
      HashesOfConcat(rs[..m], [rs[m]]);
      HashesOfConcat(Without(rs[..m], done), if rs[m].hash in done then [] else [rs[m]]);
      assert Hashes([rs[m]]) == {rs[m].hash};
      assert Hashes([]) == {};
    }
  }

  lemma {:induction false} LaterIsInOrder(q: seq<Item>, rs: seq<Report>, done: set<Hash>)
    requires InOrder(q, rs)
    ensures InOrder(EditQueue(q, done), Without(rs, done))
  {
    if rs != [] {
      var m := |rs| - 1;
      assert forall n :: 0 <= n < m ==> rs[..m][..n] == rs[..n];
      assert forall n :: 0 <= n < m ==> Supported(q, rs, n) ==> Supported(q, rs[..m], n);
      LaterIsInOrder(q, rs[..m], done);
      var front, e := Without(rs[..m], done), EditQueue(q, done);
      var all := Without(rs, done);
      forall n | 0 <= n < |all|
        ensures Supported(e, all, n)
      {
        if n < |front| {
          assert Supported(e, front, n);
          assert all[..n] == front[..n];
        } else {
          assert Supported(q, rs, m);
          var i :| i in q && i.report == rs[m] && i.waits <= Hashes(rs[..m]);
          EditedFrom(q, done);
          WithoutHashes(rs[..m], done);
          assert Item(i.report, i.waits - done) in e;
          assert all[..n] == front;
        }
      }
    }
  }

  /** No report twice, when no two items have the same hash. */
  ghost predicate Unique(q: seq<Item>) {
    forall a, b :: 0 <= a < b < |q| ==> q[a].report.hash != q[b].report.hash
  }

  predicate NoTwice(rs: seq<Report>) {
    forall a, b :: 0 <= a < b < |rs| ==> rs[a].hash != rs[b].hash
  }

  /** The last item of a queue without repetitions differs from all that remain before it. */
  lemma LastDiffers(q: seq<Item>, accumulated: set<Hash>, i: Item)
    requires Unique(q) && q != [] && i in EditQueue(q[..|q| - 1], accumulated)
    ensures i.report.hash != q[|q| - 1].report.hash
  {
    var front := q[..|q| - 1];
    EditedFrom(front, accumulated);
    var j :| j in front && j.report == i.report;
    var k :| 0 <= k < |front| && front[k] == j;
    assert q[k].report.hash != q[|q| - 1].report.hash;
  }

  lemma {:induction false} EditKeepsUnique(q: seq<Item>, accumulated: set<Hash>)
    requires Unique(q)
    ensures Unique(EditQueue(q, accumulated))
  {
    if q != [] {
      var m := |q| - 1;
      EditKeepsUnique(q[..m], accumulated);
      var rest := EditQueue(q[..m], accumulated);
      forall a | 0 <= a < |rest|
        ensures rest[a].report.hash != q[m].report.hash
      {
        LastDiffers(q, accumulated, rest[a]);
      }
    }
  }

  lemma {:induction false} UnblockedNoTwice(q: seq<Item>)
    requires Unique(q)
    ensures NoTwice(Unblocked(q))
  {
    if q != [] {
      var m := |q| - 1;
      UnblockedNoTwice(q[..m]);
      UnblockedAre(q[..m]);
      var front := Unblocked(q[..m]);
      forall a | 0 <= a < |front|
        ensures front[a].hash != q[m].report.hash
      {
        assert front[a] in front;
        assert Item(front[a], {}) in q[..m];
        var k :| 0 <= k < m && q[..m][k] == Item(front[a], {});
        assert q[k].report.hash != q[m].report.hash;
      }
    }
  }

  lemma {:induction false} PriorityNoTwice(q: seq<Item>)
    requires Unique(q)
    ensures NoTwice(PriorityQueue(q))
    decreases |q|
  {
    var g := Unblocked(q);
    if g != [] {
      PriorityShrinks(q);
      var e := EditQueue(q, Hashes(g));
      EditKeepsUnique(q, Hashes(g));
      PriorityNoTwice(e);
      UnblockedNoTwice(q);
      PriorityFrom(e);
      EditedFrom(q, Hashes(g));
      var rest := PriorityQueue(e);
      forall a, b | 0 <= a < |g| && 0 <= b < |rest|
        ensures g[a].hash != rest[b].hash
      {
        assert g[a] in g && rest[b] in rest;
        assert rest[b].hash in Names(e);
      }
    }
  }

  lemma PriorityFrom(q: seq<Item>)
    ensures forall r :: r in PriorityQueue(q) ==> exists i :: i in q && i.report == r
    ensures Hashes(PriorityQueue(q)) <= Names(q)
  {
    PriorityIsInOrder(q);
    var rs := PriorityQueue(q);
    forall r | r in rs
      ensures exists i :: i in q && i.report == r
    {
      var n :| 0 <= n < |rs| && rs[n] == r;
      assert Supported(q, rs, n);
    }
  }
}
