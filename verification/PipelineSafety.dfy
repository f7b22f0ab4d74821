/** What every block keeps, hence what holds over whole runs of the pipeline. */
module PipelineSafety {
  import opened Octets
  import opened Options
  import opened AccumulationQueue
  import opened WorkPipeline

  // ---------------------------------------------------------------- the invariant

  ghost predicate DistinctPending(cores: Cores) {
    forall a, b :: 0 <= a < b < |cores| && cores[a].Some? && cores[b].Some? ==>
      cores[a].value.report.hash != cores[b].value.report.hash
  }

  ghost predicate RingUnique(queue: seq<seq<Item>>) {
    && (forall n :: 0 <= n < |queue| ==> Unique(queue[n]))
    && (forall m, n :: 0 <= m < n < |queue| ==> Names(queue[m]) !! Names(queue[n]))
  }

  ghost predicate DistinctHistory(history: seq<set<Hash>>) {
    forall m, n :: 0 <= m < n < |history| ==> history[m] !! history[n]
  }

  /** No package is in two places, and none twice in one place. */
  ghost predicate Exclusive(st: Pipeline) {
    && DistinctPending(st.cores) && RingUnique(st.queue) && DistinctHistory(st.history)
    && PendingHashes(st.cores) !! QueueNames(st.queue)
    && PendingHashes(st.cores) !! HistoryHashes(st.history)
    && QueueNames(st.queue) !! HistoryHashes(st.history)
  }

  ghost predicate Increasing(recent: seq<RecentBlock>, slot: nat) {
    && (forall m, n :: 0 <= m < n < |recent| ==> recent[m].slot < recent[n].slot)
    && (forall n :: 0 <= n < |recent| ==> recent[n].slot <= slot)
  }

  ghost predicate InRecent(recent: seq<RecentBlock>, p: Pending) {
    exists n :: 0 <= n < |recent| && recent[n].slot == p.slot && p.report.hash in recent[n].reported
  }

  /** A report still pending was reported in a block the recent history still shows. */
  ghost predicate Remembered(cfg: Config, st: Pipeline) {
    && |st.recent| <= cfg.recent
    && Increasing(st.recent, st.slot)
    && forall c :: 0 <= c < |st.cores| && st.cores[c].Some? ==> InRecent(st.recent, st.cores[c].value)
  }

  /** A queued item waits for nothing accumulated, and only dropped what ever was. */
  ghost predicate ItemWaits(i: Item, history: set<Hash>, ever: set<Hash>) {
    i.waits !! history && i.report.Dependencies() - i.waits <= ever
  }

  ghost predicate Waits(st: Pipeline, ever: set<Hash>) {
    && HistoryHashes(st.history) <= ever
    && forall n, i :: 0 <= n < |st.queue| && i in st.queue[n] ==> ItemWaits(i, HistoryHashes(st.history), ever)
  }

  /** `ever` are all packages accumulated so far, also those the window has forgotten. */
  ghost predicate Inv(cfg: Config, st: Pipeline, ever: set<Hash>) {
    && |st.queue| == cfg.epoch && |st.history| == cfg.epoch
    && Exclusive(st)
    && Remembered(cfg, st)
    && Waits(st, ever)
  }

  // ---------------------------------------------------------------- what becomes available

  lemma {:induction false} AvailableAre(cores: Cores, b: Block)
    ensures forall r :: r in Available(cores, b) <==>
              exists c :: 0 <= c < |cores| && cores[c].Some? && Assured(b, c) && cores[c].value.report == r
  {
    if cores != [] {
      var m := |cores| - 1;
      AvailableAre(cores[..m], b);
      forall r
        ensures r in Available(cores, b) <==>
                exists c :: 0 <= c < |cores| && cores[c].Some? && Assured(b, c) && cores[c].value.report == r
      {
        if r in Available(cores[..m], b) {
          var c :| 0 <= c < m && cores[..m][c].Some? && Assured(b, c) && cores[..m][c].value.report == r;
          assert cores[c].value.report == r;
        }
        if c :| 0 <= c < m && cores[c].Some? && Assured(b, c) && cores[c].value.report == r {
          assert cores[..m][c].value.report == r;
        }
      }
    }
  }

  lemma {:induction false} AvailableNoTwice(cores: Cores, b: Block)
    requires DistinctPending(cores)
    ensures NoTwice(Available(cores, b))
  {
    if cores != [] {
      var m := |cores| - 1;
      AvailableNoTwice(cores[..m], b);
      AvailableAre(cores[..m], b);
      var front := Available(cores[..m], b);
      if cores[m].Some? && Assured(b, m) {
        forall a | 0 <= a < |front|
          ensures front[a].hash != cores[m].value.report.hash
        {
          assert front[a] in front;
          var c :| 0 <= c < m && cores[..m][c].Some? && cores[..m][c].value.report == front[a];
          assert cores[c].Some?;
        }
      }
    }
  }

  /** The reports ready at once and those that wait share the available ones between them. */
  ghost predicate Shared(available: seq<Report>, ready: seq<Report>, waiting: seq<Item>) {
    && NoTwice(ready) && Unique(waiting)
    && Hashes(ready) !! Names(waiting)
    && Hashes(ready) + Names(waiting) == Hashes(available)
    && (forall r :: r in ready ==> r in available && r.Dependencies() == {})
    && (forall i :: i in waiting ==> i.report in available && i.waits == i.report.Dependencies())
  }

  lemma OneMoreReady(available: seq<Report>, ready: seq<Report>, waiting: seq<Item>, last: Report)
    requires Shared(available, ready, waiting) && last.hash !in Hashes(available) && last.Dependencies() == {}
    ensures Shared(available + [last], ready + [last], waiting)
  {
    NoTwiceAppend(ready, last);
    HashesOfConcat(available, [last]);
    HashesOfConcat(ready, [last]);
    OnlyHash(last);
    hide Hashes, Names, NoTwice, Unique;
  }

  lemma OneMoreWaiting(available: seq<Report>, ready: seq<Report>, waiting: seq<Item>, last: Report)
    requires Shared(available, ready, waiting) && last.hash !in Hashes(available)
    ensures Shared(available + [last], ready, waiting + [WithDependencies(last)])
  {
    UniqueAppend(waiting, WithDependencies(last));
    HashesOfConcat(available, [last]);
    NamesOfConcat(waiting, [WithDependencies(last)]);
    OnlyHash(last);
    hide Hashes, Names, NoTwice, Unique;
  }

  lemma OnlyHash(last: Report)
    ensures Hashes([last]) == {last.hash} == Names([WithDependencies(last)])
  {
    assert last in [last] && WithDependencies(last) in [WithDependencies(last)];
  }

  lemma LastIsNew(rs: seq<Report>)
    requires rs != [] && NoTwice(rs)
    ensures NoTwice(rs[..|rs| - 1]) && rs[|rs| - 1].hash !in Hashes(rs[..|rs| - 1])
  {
  }

  lemma {:induction false} ReadyAndWaiting(available: seq<Report>)
    requires NoTwice(available)
    ensures Shared(available, Ready(available), Waiting(available))
  {
    hide Shared, NoTwice, Hashes;
    if available == [] {
      NothingShared();
    } else {
      var m := |available| - 1;
      LastIsNew(available);
      ReadyAndWaiting(available[..m]);
      assert available == available[..m] + [available[m]];
      if available[m].Dependencies() == {} {
        assert Waiting(available) == Waiting(available[..m]);
        OneMoreReady(available[..m], Ready(available[..m]), Waiting(available[..m]), available[m]);
      } else {
        assert Ready(available) == Ready(available[..m]);
        OneMoreWaiting(available[..m], Ready(available[..m]), Waiting(available[..m]), available[m]);
      }
    }
  }

  lemma NothingShared()
    ensures Shared([], [], [])
  {
  }

  lemma NoTwiceAppend(rs: seq<Report>, last: Report)
    requires NoTwice(rs) && last.hash !in Hashes(rs)
    ensures NoTwice(rs + [last])
  {
    forall a | 0 <= a < |rs|
      ensures rs[a].hash != last.hash
    {
      assert rs[a] in rs;
    }
  }

  lemma UniqueAppend(q: seq<Item>, last: Item)
    requires Unique(q) && last.report.hash !in Names(q)
    ensures Unique(q + [last])
  {
    forall a | 0 <= a < |q|
      ensures q[a].report.hash != last.report.hash
    {
      assert q[a] in q;
    }
  }

  lemma NamesOfConcat(a: seq<Item>, b: seq<Item>)
    ensures Names(a + b) == Names(a) + Names(b)
  {
    forall h | h in Names(a) + Names(b)
      ensures h in Names(a + b)
    {
      if h in Names(a) {
        var i :| i in a && i.report.hash == h;
        assert i in a + b;
      } else {
        var i :| i in b && i.report.hash == h;
        assert i in a + b;
      }
    }
  }

  lemma UniqueConcat(a: seq<Item>, b: seq<Item>)
    requires Unique(a) && Unique(b) && Names(a) !! Names(b)
    ensures Unique(a + b)
  {
    forall x, y | 0 <= x < |a| && 0 <= y < |b|
      ensures a[x].report.hash != b[y].report.hash
    {
      assert a[x] in a && b[y] in b;
      assert a[x].report.hash in Names(a) && b[y].report.hash in Names(b);
    }
  }

  lemma NoTwiceConcat(a: seq<Report>, b: seq<Report>)
    requires NoTwice(a) && NoTwice(b) && Hashes(a) !! Hashes(b)
    ensures NoTwice(a + b)
  {
    forall x, y | 0 <= x < |a| && 0 <= y < |b|
      ensures a[x].hash != b[y].hash
    {
      assert a[x] in a && b[y] in b;
      assert a[x].hash in Hashes(a) && b[y].hash in Hashes(b);
    }
  }

  /** `fewer` are the same cores, some of them freed. */
  ghost predicate Freed(fewer: Cores, cores: Cores) {
    |fewer| == |cores| && forall c :: 0 <= c < |cores| && fewer[c].Some? ==> fewer[c] == cores[c]
  }

  lemma FreedHaveFewer(fewer: Cores, cores: Cores)
    requires Freed(fewer, cores)
    ensures PendingHashes(fewer) <= PendingHashes(cores)
    ensures DistinctPending(cores) ==> DistinctPending(fewer)
  {
    forall h | h in PendingHashes(fewer)
      ensures h in PendingHashes(cores)
    {
      var c :| 0 <= c < |fewer| && fewer[c].Some? && fewer[c].value.report.hash == h;
      assert cores[c].Some?;
    }
  }

  lemma BothFree(cfg: Config, cores: Cores, b: Block)
    ensures Freed(AfterDisputes(cores, b.rejected), cores) && Freed(AfterAssurances(cfg, cores, b), cores)
  {
    hide Assured, Expired;
  }

  lemma AvailableArePending(cores: Cores, b: Block)
    ensures Hashes(Available(cores, b)) <= PendingHashes(cores)
  {
    hide Assured, Available;
    AvailableAre(cores, b);
    forall h | h in Hashes(Available(cores, b))
      ensures h in PendingHashes(cores)
    {
      var r :| r in Available(cores, b) && r.hash == h;
    }
  }

  lemma AvailableAreFreed(cfg: Config, cores: Cores, b: Block, h: Hash)
    requires DistinctPending(cores) && h in Hashes(Available(cores, b))
    ensures h !in PendingHashes(AfterAssurances(cfg, cores, b))
  {
    hide Assured, Expired, Available;
    AvailableAre(cores, b);
    var r :| r in Available(cores, b) && r.hash == h;
    var c :| 0 <= c < |cores| && cores[c].Some? && Assured(b, c) && cores[c].value.report == r;
    hide Hashes, AfterAssurances;
    forall k | 0 <= k < |cores| && AfterAssurances(cfg, cores, b)[k].Some?
      ensures cores[k].value.report.hash != h
    {
      assert k != c;
    }
  }

  /** What the pending cores hand over in this block. */
  lemma HandedOver(cfg: Config, st: Pipeline, b: Block)
    requires DistinctPending(st.cores)
    ensures var disputed := AfterDisputes(st.cores, b.rejected);
            var available := Available(disputed, b);
            && NoTwice(available)
            && Hashes(available) <= PendingHashes(st.cores)
            && PendingHashes(AfterAssurances(cfg, disputed, b)) <= PendingHashes(st.cores)
            && Hashes(available) !! PendingHashes(AfterAssurances(cfg, disputed, b))
            && DistinctPending(AfterAssurances(cfg, disputed, b))
  {
    hide *;
    var disputed := AfterDisputes(st.cores, b.rejected);
    var after := AfterAssurances(cfg, disputed, b);
    BothFree(cfg, st.cores, b);
    BothFree(cfg, disputed, b);
    FreedHaveFewer(disputed, st.cores);
    FreedHaveFewer(after, disputed);
    AvailableNoTwice(disputed, b);
    AvailableArePending(disputed, b);
    forall h | h in Hashes(Available(disputed, b))
      ensures h !in PendingHashes(after)
    {
      AvailableAreFreed(cfg, disputed, b, h);
    }
  }

  // ---------------------------------------------------------------- what is accumulated

  lemma {:induction false} FlattenNames(queue: seq<seq<Item>>)
    ensures Names(Flatten(queue)) == QueueNames(queue)
    ensures forall i :: i in Flatten(queue) <==> exists n :: 0 <= n < |queue| && i in queue[n]
  {
    if queue != [] {
      var m := |queue| - 1;
      FlattenNames(queue[..m]);
      NamesOfConcat(Flatten(queue[..m]), queue[m]);
      forall i
        ensures i in Flatten(queue) <==> exists n :: 0 <= n < |queue| && i in queue[n]
      {
        if i in Flatten(queue[..m]) {
          var n :| 0 <= n < m && i in queue[..m][n];
          assert i in queue[n];
        }
        if n: int :| 0 <= n < m && i in queue[n] {
          assert i in queue[..m][n];
        }
      }
      forall h | h in QueueNames(queue)
        ensures h in Names(Flatten(queue))
      {
        var n: int, i: Item :| 0 <= n < |queue| && i in queue[n] && i.report.hash == h;
        assert i in Flatten(queue);
      }
    }
  }

  lemma {:induction false} FlattenUnique(queue: seq<seq<Item>>)
    requires RingUnique(queue)
    ensures Unique(Flatten(queue))
  {
    if queue != [] {
      var m := |queue| - 1;
      FlattenUnique(queue[..m]);
      FlattenNames(queue[..m]);
      forall h | h in Names(Flatten(queue[..m]))
        ensures h !in Names(queue[m])
      {
        var n: int, i: Item :| 0 <= n < m && i in queue[..m][n] && i.report.hash == h;
        assert h in Names(queue[n]);
      }
      UniqueConcat(Flatten(queue[..m]), queue[m]);
    }
  }

  /** The ring read from bucket `m` round to the one before it. */
  function Rotated(queue: seq<seq<Item>>, m: nat): seq<Item>
    requires m <= |queue|
  {
    Flatten(queue[m..]) + Flatten(queue[..m])
  }

  lemma RotatedUnique(queue: seq<seq<Item>>, m: nat)
    requires RingUnique(queue) && m <= |queue|
    ensures Unique(Rotated(queue, m))
    ensures Names(Rotated(queue, m)) == QueueNames(queue)
    ensures forall i :: i in Rotated(queue, m) <==> exists n :: 0 <= n < |queue| && i in queue[n]
  {
    hide Unique, Names, QueueNames, Flatten, RingUnique;
    var hi, lo := queue[m..], queue[..m];
    RingSplits(queue, m);
    FlattenUnique(hi);
    FlattenUnique(lo);
    FlattenNames(hi);
    FlattenNames(lo);
    UniqueConcat(Flatten(hi), Flatten(lo));
    NamesOfConcat(Flatten(hi), Flatten(lo));
    forall i
      ensures i in Rotated(queue, m) <==> exists n :: 0 <= n < |queue| && i in queue[n]
    {
      BucketSplits(queue, m, i);
    }
  }

  lemma RingSplits(queue: seq<seq<Item>>, m: nat)
    requires RingUnique(queue) && m <= |queue|
    ensures RingUnique(queue[m..]) && RingUnique(queue[..m])
    ensures QueueNames(queue[m..]) !! QueueNames(queue[..m])
    ensures QueueNames(queue) == QueueNames(queue[m..]) + QueueNames(queue[..m])
  {
    forall h
      ensures h in QueueNames(queue[m..]) ==> h !in QueueNames(queue[..m])
      ensures h in QueueNames(queue) <==> h in QueueNames(queue[m..]) || h in QueueNames(queue[..m])
    {
      NamesSplit(queue, m, h);
    }
  }

  lemma NamesSplit(queue: seq<seq<Item>>, m: nat, h: Hash)
    requires RingUnique(queue) && m <= |queue|
    ensures h in QueueNames(queue[m..]) ==> h !in QueueNames(queue[..m])
    ensures h in QueueNames(queue) <==> h in QueueNames(queue[m..]) || h in QueueNames(queue[..m])
  {
    hide Names;
    NamedInBucket(queue, h);
    NamedInBucket(queue[m..], h);
    NamedInBucket(queue[..m], h);
    if n: int :| 0 <= n < |queue| && h in Names(queue[n]) {
      assert if n >= m then h in Names(queue[m..][n - m]) else h in Names(queue[..m][n]);
    }
  }

  lemma NamedInBucket(queue: seq<seq<Item>>, h: Hash)
    ensures h in QueueNames(queue) <==> exists n :: 0 <= n < |queue| && h in Names(queue[n])
  {
  }

  lemma BucketSplits(queue: seq<seq<Item>>, m: nat, i: Item)
    requires m <= |queue|
    ensures (exists n :: 0 <= n < |queue| && i in queue[n]) <==>
            (exists n :: 0 <= n < |queue[m..]| && i in queue[m..][n]) ||
              (exists n :: 0 <= n < |queue[..m]| && i in queue[..m][n])
  {
    if n: int :| 0 <= n < |queue| && i in queue[n] {
      if n >= m {
        assert i in queue[m..][n - m];
      } else {
        assert i in queue[..m][n];
      }
    }
    if n: int :| 0 <= n < |queue[m..]| && i in queue[m..][n] {
      assert i in queue[m + n];
    }
    if n: int :| 0 <= n < |queue[..m]| && i in queue[..m][n] {
      assert i in queue[n];
    }
  }

  lemma QueuedAre(available: seq<Report>, history: seq<set<Hash>>)
    requires NoTwice(available)
    ensures Unique(Queued(available, history))
    ensures Names(Queued(available, history)) <= Hashes(available) - HistoryHashes(history)
    ensures Names(Queued(available, history)) !! Hashes(Ready(available))
    ensures forall i :: i in Queued(available, history) ==>
              i.waits !! HistoryHashes(history) && i.report.Dependencies() - i.waits <= HistoryHashes(history)
  {
    ReadyAndWaiting(available);
    EditKeepsUnique(Waiting(available), HistoryHashes(history));
    EditedFrom(Waiting(available), HistoryHashes(history));
  }

  /** All reports that could be accumulated in this block, before the gas cuts the list. */
  lemma AccumulatableAre(cfg: Config, st: Pipeline, b: Block, available: seq<Report>)
    requires cfg.epoch >= 1 && |st.queue| == cfg.epoch
    requires RingUnique(st.queue) && NoTwice(available) && Hashes(available) !! QueueNames(st.queue)
    ensures NoTwice(Accumulatable(cfg, st, b, available))
    ensures Hashes(Accumulatable(cfg, st, b, available)) <= Hashes(available) + QueueNames(st.queue)
  {
    var m := b.slot % cfg.epoch;
    var queued, ready := Queued(available, st.history), Ready(available);
    RotatedUnique(st.queue, m);
    QueuedAre(available, st.history);
    ReadyAndWaiting(available);
    var all := Rotated(st.queue, m) + queued;
    UniqueConcat(Rotated(st.queue, m), queued);
    NamesOfConcat(Rotated(st.queue, m), queued);
    EditKeepsUnique(all, Hashes(ready));
    EditedFrom(all, Hashes(ready));
    var q := Candidates(cfg, st, b, available);
    assert q == EditQueue(all, Hashes(ready));
    PriorityNoTwice(q);
    PriorityFrom(q);
    NoTwiceConcat(ready, PriorityQueue(q));
    HashesOfConcat(ready, PriorityQueue(q));
  }

  lemma PrefixHashes(rs: seq<Report>, n: nat)
    requires n <= |rs|
    ensures Hashes(rs[..n]) <= Hashes(rs)
  {
    assert rs == rs[..n] + rs[n..];
    HashesOfConcat(rs[..n], rs[n..]);
  }

  lemma AccumulatedAre(cfg: Config, st: Pipeline, b: Block)
    requires cfg.epoch >= 1 && |st.queue| == cfg.epoch && |st.history| == cfg.epoch && Exclusive(st)
    ensures var available := Available(AfterDisputes(st.cores, b.rejected), b);
            && NoTwice(Accumulated(cfg, st, b))
            && Hashes(Accumulated(cfg, st, b)) <= Hashes(available) + QueueNames(st.queue)
            && Hashes(Accumulated(cfg, st, b)) !! HistoryHashes(st.history)
  {
    var available := Available(AfterDisputes(st.cores, b.rejected), b);
    HandedOver(cfg, st, b);
    AccumulatableAre(cfg, st, b, available);
    var list := Accumulatable(cfg, st, b, available);
    if b.accumulated <= |list| {
      PrefixHashes(list, b.accumulated);
    }
  }

  // ---------------------------------------------------------------- the next queue and history

  ghost predicate BeforeEdit(queued: seq<Item>, bucket: seq<Item>, done: set<Hash>, i: Item) {
    exists j: Item :: (j in queued || j in bucket) && j.report == i.report && i.waits == j.waits - done
  }

  lemma NextBucketFrom(cfg: Config, st: Pipeline, slot: nat, queued: seq<Item>, done: set<Hash>, n: nat)
    requires cfg.epoch >= 1 && |st.queue| == cfg.epoch && slot > st.slot && n < cfg.epoch
    requires Unique(queued) && RingUnique(st.queue)
    ensures var r := NextBucket(cfg, st, slot, queued, done, n);
            && Unique(r) && Names(r) !! done
            && (n == slot % cfg.epoch ==> Names(r) <= Names(queued))
            && (n != slot % cfg.epoch ==> Names(r) <= Names(st.queue[n]))
            && forall i :: i in r ==> BeforeEdit(queued, st.queue[n], done, i)
  {
    EditKeepsUnique(queued, done);
    EditKeepsUnique(st.queue[n], done);
    EditedFrom(queued, done);
    EditedFrom(st.queue[n], done);
  }

  lemma NextQueueUnique(cfg: Config, st: Pipeline, slot: nat, queued: seq<Item>, done: set<Hash>)
    requires cfg.epoch >= 1 && |st.queue| == cfg.epoch && slot > st.slot
    requires Unique(queued) && RingUnique(st.queue) && Names(queued) !! QueueNames(st.queue)
    ensures RingUnique(NextQueue(cfg, st, slot, queued, done))
    ensures QueueNames(NextQueue(cfg, st, slot, queued, done)) <= (QueueNames(st.queue) + Names(queued)) - done
  {
    var r, m := NextQueue(cfg, st, slot, queued, done), slot % cfg.epoch;
    forall n | 0 <= n < cfg.epoch
      ensures Unique(r[n]) && Names(r[n]) !! done
      ensures Names(r[n]) <= if n == m then Names(queued) else Names(st.queue[n])
      ensures Names(st.queue[n]) <= QueueNames(st.queue)
    {
      NextBucketFrom(cfg, st, slot, queued, done, n);
    }
    forall h | h in QueueNames(r)
      ensures h in (QueueNames(st.queue) + Names(queued)) - done
    {
      var n: int, i: Item :| 0 <= n < |r| && i in r[n] && i.report.hash == h;
      assert h in Names(r[n]);
    }
  }

  lemma NextItemsWait(cfg: Config, st: Pipeline, slot: nat, queued: seq<Item>, done: set<Hash>, ever: set<Hash>, n: nat,
      i: Item)
    requires cfg.epoch >= 1 && |st.queue| == cfg.epoch && |st.history| == cfg.epoch && slot > st.slot && n < cfg.epoch
    requires Unique(queued) && RingUnique(st.queue) && Waits(st, ever)
    requires forall j :: j in queued ==> ItemWaits(j, HistoryHashes(st.history), ever)
    requires i in NextBucket(cfg, st, slot, queued, done, n)
    ensures ItemWaits(i, HistoryHashes(st.history[1..] + [done]), ever + done)
  {
    NextBucketFrom(cfg, st, slot, queued, done, n);
    NextHistory(st.history, done);
    assert BeforeEdit(queued, st.queue[n], done, i);
    var j: Item :| (j in queued || j in st.queue[n]) && j.report == i.report && i.waits == j.waits - done;
    assert ItemWaits(j, HistoryHashes(st.history), ever);
  }

  lemma NextHistory(history: seq<set<Hash>>, done: set<Hash>)
    requires |history| >= 1
    ensures HistoryHashes(history[1..] + [done]) <= HistoryHashes(history) + done
    ensures DistinctHistory(history) && done !! HistoryHashes(history) ==> DistinctHistory(history[1..] + [done])
  {
    var next := history[1..] + [done];
    forall h | h in HistoryHashes(next)
      ensures h in HistoryHashes(history) + done
    {
      var n :| 0 <= n < |next| && h in next[n];
      if n < |history| - 1 {
        assert next[n] == history[n + 1];
      }
    }
    if DistinctHistory(history) && done !! HistoryHashes(history) {
      forall m, n | 0 <= m < n < |next|
        ensures next[m] !! next[n]
      {
        assert next[m] == history[m + 1];
        if n < |history| - 1 {
          assert next[n] == history[n + 1];
        } else {
          assert forall h :: h in history[m + 1] ==> h in HistoryHashes(history);
        }
      }
    }
  }

  // ---------------------------------------------------------------- the next cores and recent blocks

  predicate OnDistinctCores(gs: seq<Report>) {
    forall a, b :: 0 <= a < b < |gs| ==> gs[a].core < gs[b].core
  }

  lemma {:induction false} GuaranteedCores(cores: Cores, gs: seq<Report>, slot: nat)
    requires forall n :: 0 <= n < |gs| ==> gs[n].core < |cores|
    requires OnDistinctCores(gs)
    ensures var r := AfterGuarantees(cores, gs, slot);
            forall c :: 0 <= c < |cores| ==>
              r[c] == cores[c] || exists n :: 0 <= n < |gs| && gs[n].core == c && r[c] == Some(Pending(gs[n], slot))
  {
    if gs != [] {
      var m := |gs| - 1;
      GuaranteedCores(cores, gs[..m], slot);
      var front, r := AfterGuarantees(cores, gs[..m], slot), AfterGuarantees(cores, gs, slot);
      forall c | 0 <= c < |cores|
        ensures r[c] == cores[c] || exists n :: 0 <= n < |gs| && gs[n].core == c && r[c] == Some(Pending(gs[n], slot))
      {
        if c == gs[m].core {
          assert r[c] == Some(Pending(gs[m], slot));
        } else if r[c] != cores[c] {
          var n :| 0 <= n < m && gs[..m][n].core == c && front[c] == Some(Pending(gs[..m][n], slot));
          assert gs[n].core == c;
        }
      }
    }
  }

  lemma GuaranteedDistinct(cores: Cores, gs: seq<Report>, slot: nat)
    requires forall n :: 0 <= n < |gs| ==> gs[n].core < |cores|
    requires OnDistinctCores(gs) && NoTwice(gs)
    requires DistinctPending(cores) && Hashes(gs) !! PendingHashes(cores)
    ensures DistinctPending(AfterGuarantees(cores, gs, slot))
    ensures PendingHashes(AfterGuarantees(cores, gs, slot)) <= PendingHashes(cores) + Hashes(gs)
  {
    GuaranteedCores(cores, gs, slot);
    var r := AfterGuarantees(cores, gs, slot);
    forall c | 0 <= c < |r| && r[c].Some?
      ensures r[c] != cores[c] ==> r[c].value.report.hash in Hashes(gs)
      ensures r[c] == cores[c] ==> r[c].value.report.hash in PendingHashes(cores)
    {
      if r[c] != cores[c] {
        var n :| 0 <= n < |gs| && gs[n].core == c && r[c] == Some(Pending(gs[n], slot));
        assert gs[n] in gs;
      }
    }
    forall a, b | 0 <= a < b < |r| && r[a].Some? && r[b].Some?
      ensures r[a].value.report.hash != r[b].value.report.hash
    {
      if r[a] != cores[a] && r[b] != cores[b] {
        var m :| 0 <= m < |gs| && gs[m].core == a && r[a] == Some(Pending(gs[m], slot));
        var n :| 0 <= n < |gs| && gs[n].core == b && r[b] == Some(Pending(gs[n], slot));
        assert m != n;
      }
    }
  }

  /** What was pending before the block is still in the recent history, also if it leaves its core now. */
  lemma PendingIsRecent(cfg: Config, st: Pipeline)
    requires Remembered(cfg, st)
    ensures PendingHashes(st.cores) <= RecentHashes(st.recent)
  {
    forall h | h in PendingHashes(st.cores)
      ensures h in RecentHashes(st.recent)
    {
      var c :| 0 <= c < |st.cores| && st.cores[c].Some? && st.cores[c].value.report.hash == h;
      assert InRecent(st.recent, st.cores[c].value);
    }
  }

  lemma {:induction false} SlotsSpread(recent: seq<RecentBlock>, slot: nat, n: nat)
    requires Increasing(recent, slot) && n < |recent|
    ensures recent[n].slot >= recent[0].slot + n
  {
    if n > 0 {
      SlotsSpread(recent, slot, n - 1);
    }
  }

  /**
   Here the availability timeout must not exceed the recent history: the block that leaves
   the history is at least H slots old, and what it reported has expired by then.
   */
  lemma StillRecent(cfg: Config, st: Pipeline, gs: seq<Report>, slot: nat, p: Pending)
    requires cfg.Valid() && cfg.recent >= 1
    requires |st.recent| <= cfg.recent && Increasing(st.recent, st.slot) && slot > st.slot
    requires InRecent(st.recent, p) && slot < p.slot + cfg.timeout
    ensures InRecent(NextRecent(cfg, st.recent, slot, gs), p)
  {
    var longer, next := st.recent + [RecentBlock(slot, Hashes(gs))], NextRecent(cfg, st.recent, slot, gs);
    var n :| 0 <= n < |st.recent| && st.recent[n].slot == p.slot && p.report.hash in st.recent[n].reported;
    if |longer| > cfg.recent {
      SlotsSpread(st.recent, st.slot, |st.recent| - 1);
      assert next[n - 1] == st.recent[n];
    } else {
      assert next[n] == st.recent[n];
    }
  }

  lemma NextRemembers(cfg: Config, st: Pipeline, cores: Cores, gs: seq<Report>, slot: nat, next: Pipeline)
    requires cfg.Valid() && Remembered(cfg, st) && slot > st.slot
    requires |cores| == |st.cores|
    requires forall c :: 0 <= c < |cores| && cores[c].Some? ==>
               cores[c] == st.cores[c] && slot < cores[c].value.slot + cfg.timeout
    requires forall n :: 0 <= n < |gs| ==> gs[n].core < |cores|
    requires OnDistinctCores(gs)
    requires cfg.recent >= 1
    requires next.slot == slot && next.cores == AfterGuarantees(cores, gs, slot)
    requires next.recent == NextRecent(cfg, st.recent, slot, gs)
    ensures Remembered(cfg, next)
  {
    hide AfterGuarantees, InRecent;
    GuaranteedCores(cores, gs, slot);
    forall c | 0 <= c < |next.cores| && next.cores[c].Some?
      ensures InRecent(next.recent, next.cores[c].value)
    {
      if next.cores[c] == cores[c] {
        StillRecent(cfg, st, gs, slot, cores[c].value);
      } else {
        var n :| 0 <= n < |gs| && next.cores[c] == Some(Pending(gs[n], slot));
        JustReported(cfg, st.recent, gs, slot, n);
      }
    }
  }

  lemma JustReported(cfg: Config, recent: seq<RecentBlock>, gs: seq<Report>, slot: nat, n: nat)
    requires cfg.recent >= 1 && n < |gs|
    ensures InRecent(NextRecent(cfg, recent, slot, gs), Pending(gs[n], slot))
  {
    var next := NextRecent(cfg, recent, slot, gs);
    assert gs[n] in gs;
    assert next[|next| - 1] == RecentBlock(slot, Hashes(gs));
  }

  // ---------------------------------------------------------------- one block

  lemma StepShape(cfg: Config, st: Pipeline, b: Block, ever: set<Hash>)
    requires cfg.Valid() && Inv(cfg, st, ever) && Step(cfg, st, b).Some?
    ensures Hashes(b.guarantees) !! PendingHashes(st.cores)
    ensures Hashes(b.guarantees) !! QueueNames(st.queue) && Hashes(b.guarantees) !! HistoryHashes(st.history)
  {
    PendingIsRecent(cfg, st);
  }

  lemma StepKeepsExclusive(cfg: Config, st: Pipeline, b: Block, ever: set<Hash>)
    requires cfg.Valid() && Inv(cfg, st, ever) && Step(cfg, st, b).Some?
    ensures Exclusive(Step(cfg, st, b).value)
  {
    var disputed := AfterDisputes(st.cores, b.rejected);
    var available, cores := Available(disputed, b), AfterAssurances(cfg, disputed, b);
    var queued, done := Queued(available, st.history), Hashes(Accumulated(cfg, st, b));
    StepShape(cfg, st, b, ever);
    HandedOver(cfg, st, b);
    QueuedAre(available, st.history);
    AccumulatedAre(cfg, st, b);
    NextQueueUnique(cfg, st, b.slot, queued, done);
    NextHistory(st.history, done);
    GuaranteedDistinct(cores, b.guarantees, b.slot);
  }

  lemma StepKeepsWaits(cfg: Config, st: Pipeline, b: Block, ever: set<Hash>)
    requires cfg.Valid() && Inv(cfg, st, ever) && Step(cfg, st, b).Some?
    ensures Waits(Step(cfg, st, b).value, ever + Hashes(Accumulated(cfg, st, b)))
  {
    var available := Available(AfterDisputes(st.cores, b.rejected), b);
    var queued, done := Queued(available, st.history), Hashes(Accumulated(cfg, st, b));
    var next := Step(cfg, st, b).value;
    HandedOver(cfg, st, b);
    QueuedAre(available, st.history);
    NextHistory(st.history, done);
    forall n, i | 0 <= n < |next.queue| && i in next.queue[n]
      ensures ItemWaits(i, HistoryHashes(next.history), ever + done)
    {
      NextItemsWait(cfg, st, b.slot, queued, done, ever, n, i);
    }
  }

  lemma StepKeepsRemembered(cfg: Config, st: Pipeline, b: Block, ever: set<Hash>)
    requires cfg.Valid() && cfg.recent >= 1 && Inv(cfg, st, ever) && Step(cfg, st, b).Some?
    ensures Remembered(cfg, Step(cfg, st, b).value)
  {
    var disputed := AfterDisputes(st.cores, b.rejected);
    var cores := AfterAssurances(cfg, disputed, b);
    forall c | 0 <= c < |cores| && cores[c].Some?
      ensures cores[c] == st.cores[c] && b.slot < cores[c].value.slot + cfg.timeout
    {
      assert cores[c] == disputed[c];
    }
    NextRemembers(cfg, st, cores, b.guarantees, b.slot, Step(cfg, st, b).value);
  }

  /**
   One block: the invariant is kept; what is accumulated is named once and is not in the
   history window; and every accumulated report comes after all that it depends on.
   */
  lemma StepIsSafe(cfg: Config, st: Pipeline, b: Block, ever: set<Hash>)
    requires cfg.Valid() && cfg.recent >= 1 && Inv(cfg, st, ever) && Step(cfg, st, b).Some?
    ensures Inv(cfg, Step(cfg, st, b).value, ever + Hashes(Accumulated(cfg, st, b)))
    ensures NoTwice(Accumulated(cfg, st, b))
    ensures Hashes(Accumulated(cfg, st, b)) !! HistoryHashes(st.history)
    ensures DependenciesFirst(Accumulated(cfg, st, b), ever)
  {
    StepKeepsExclusive(cfg, st, b, ever);
    StepKeepsWaits(cfg, st, b, ever);
    StepKeepsRemembered(cfg, st, b, ever);
    AccumulatedAre(cfg, st, b);
    var list := Accumulatable(cfg, st, b, Available(AfterDisputes(st.cores, b.rejected), b));
    var n := |Accumulated(cfg, st, b)|;
    assert Accumulated(cfg, st, b) == list[..n];
    forall k | 0 <= k < n
      ensures list[..n][k].Dependencies() <= ever + Hashes(list[..n][..k])
    {
      DependenciesBefore(cfg, st, b, ever, k);
      assert list[..n][..k] == list[..k];
    }
  }

  /** Each report of the list comes after all that it depends on, in the list or long before it. */
  ghost predicate DependenciesFirst(rs: seq<Report>, ever: set<Hash>) {
    forall k :: 0 <= k < |rs| ==> rs[k].Dependencies() <= ever + Hashes(rs[..k])
  }

  lemma DependenciesBefore(cfg: Config, st: Pipeline, b: Block, ever: set<Hash>, k: nat)
    requires cfg.Valid() && Inv(cfg, st, ever)
    requires k < |Accumulatable(cfg, st, b, Available(AfterDisputes(st.cores, b.rejected), b))|
    ensures var list := Accumulatable(cfg, st, b, Available(AfterDisputes(st.cores, b.rejected), b));
            list[k].Dependencies() <= ever + Hashes(list[..k])
  {
    hide *;
    var available := Available(AfterDisputes(st.cores, b.rejected), b);
    ListIs(cfg, st, b, available, ever);
    var ready, rest := Ready(available), PriorityQueue(Candidates(cfg, st, b, available));
    if k < |ready| {
      ReadyNeedsNothing(available, k);
    } else {
      var n := k - |ready|;
      LaterDependencies(cfg, st, b, available, ever, n);
      assert (ready + rest)[..k] == ready + rest[..n];
      HashesOfConcat(ready, rest[..n]);
    }
  }

  lemma ListIs(cfg: Config, st: Pipeline, b: Block, available: seq<Report>, ever: set<Hash>)
    requires cfg.Valid() && Inv(cfg, st, ever)
    requires available == Available(AfterDisputes(st.cores, b.rejected), b)
    ensures cfg.epoch >= 1 && |st.queue| == cfg.epoch && NoTwice(available)
    ensures Accumulatable(cfg, st, b, available) ==
            Ready(available) + PriorityQueue(Candidates(cfg, st, b, available))
  {
    hide Available, AfterDisputes, NoTwice;
    HandedOver(cfg, st, b);
  }

  lemma ReadyNeedsNothing(available: seq<Report>, k: nat)
    requires NoTwice(available) && k < |Ready(available)|
    ensures Ready(available)[k].Dependencies() == {}
  {
    ReadyAndWaiting(available);
    assert Ready(available)[k] in Ready(available);
  }

  lemma HasRing(cfg: Config, st: Pipeline, ever: set<Hash>)
    requires cfg.Valid() && Inv(cfg, st, ever)
    ensures cfg.epoch >= 1 && |st.queue| == cfg.epoch
  {
  }

  lemma LaterDependencies(cfg: Config, st: Pipeline, b: Block, available: seq<Report>, ever: set<Hash>, n: nat)
    requires cfg.Valid() && Inv(cfg, st, ever) && NoTwice(available)
    requires n < |PriorityQueue(Candidates(cfg, st, b, available))|
    ensures var rest := PriorityQueue(Candidates(cfg, st, b, available));
            rest[n].Dependencies() <= ever + Hashes(Ready(available)) + Hashes(rest[..n])
  {
    hide Inv, Candidates, NoTwice, Ready;
    HasRing(cfg, st, ever);
    var q := Candidates(cfg, st, b, available);
    var rest := PriorityQueue(q);
    PriorityIsInOrder(q);
    assert Supported(q, rest, n);
    var i :| i in q && i.report == rest[n] && i.waits <= Hashes(rest[..n]);
    CandidateWaits(cfg, st, b, available, ever, i);
  }

  lemma CandidateWaits(cfg: Config, st: Pipeline, b: Block, available: seq<Report>, ever: set<Hash>, i: Item)
    requires cfg.Valid() && Inv(cfg, st, ever) && NoTwice(available)
    requires i in Candidates(cfg, st, b, available)
    ensures i.report.Dependencies() <= ever + Hashes(Ready(available)) + i.waits
  {
    var m := b.slot % cfg.epoch;
    var queued := Queued(available, st.history);
    RotatedUnique(st.queue, m);
    QueuedAre(available, st.history);
    EditedFrom(Rotated(st.queue, m) + queued, Hashes(Ready(available)));
    var j :| j in Rotated(st.queue, m) + queued && j.report == i.report &&
      i.waits == j.waits - Hashes(Ready(available));
    if j in Rotated(st.queue, m) {
      var n: int :| 0 <= n < |st.queue| && j in st.queue[n];
      assert ItemWaits(j, HistoryHashes(st.history), ever);
    }
  }

  // ---------------------------------------------------------------- whole runs

  datatype Trace = Trace(state: Pipeline, ever: set<Hash>)

  function Genesis(cfg: Config, cores: nat): Pipeline {
    Pipeline(0, seq(cores, _ => None), seq(cfg.epoch, _ => []), seq(cfg.epoch, _ => {}), [])
  }

  /** The state after the blocks, with all packages accumulated on the way; none if a block is invalid. */
  function Run(cfg: Config, cores: nat, blocks: seq<Block>): Option<Trace>
  {
    if blocks == [] then Some(Trace(Genesis(cfg, cores), {}))
    else
      match Run(cfg, cores, blocks[..|blocks| - 1])
      case None => None
      case Some(t) =>
        var b := blocks[|blocks| - 1];
        if cfg.epoch < 1 || |t.state.queue| != cfg.epoch || |t.state.history| != cfg.epoch then None
        else
          match Step(cfg, t.state, b)
          case None => None
          case Some(next) => Some(Trace(next, t.ever + Hashes(Accumulated(cfg, t.state, b))))
  }

  lemma {:induction false} RunKeepsInv(cfg: Config, cores: nat, blocks: seq<Block>)
    requires cfg.Valid() && cfg.recent >= 1
    ensures Run(cfg, cores, blocks).Some? ==>
              Inv(cfg, Run(cfg, cores, blocks).value.state, Run(cfg, cores, blocks).value.ever)
  {
    if blocks == [] {
      GenesisInv(cfg, cores);
    } else {
      RunKeepsInv(cfg, cores, blocks[..|blocks| - 1]);
      var before := Run(cfg, cores, blocks[..|blocks| - 1]);
      if before.Some? && Step(cfg, before.value.state, blocks[|blocks| - 1]).Some? {
        StepIsSafe(cfg, before.value.state, blocks[|blocks| - 1], before.value.ever);
      }
    }
  }

  lemma GenesisInv(cfg: Config, cores: nat)
    ensures Inv(cfg, Genesis(cfg, cores), {})
  {
    var g := Genesis(cfg, cores);
    assert PendingHashes(g.cores) == {} && QueueNames(g.queue) == {} && HistoryHashes(g.history) == {};
  }

  /**
   After any run of valid blocks the packages pending on cores, waiting in the queue and
   in the history window are pairwise disjoint and nowhere twice, and no queue entry
   names or waits for anything in the history window.
   */
  lemma RunsAreExclusive(cfg: Config, cores: nat, blocks: seq<Block>)
    requires cfg.Valid() && cfg.recent >= 1 && Run(cfg, cores, blocks).Some?
    ensures var st := Run(cfg, cores, blocks).value.state;
            && DistinctPending(st.cores) && RingUnique(st.queue) && DistinctHistory(st.history)
            && PendingHashes(st.cores) !! QueueNames(st.queue)
            && PendingHashes(st.cores) !! HistoryHashes(st.history)
            && QueueNames(st.queue) !! HistoryHashes(st.history)
            && forall n, i :: 0 <= n < |st.queue| && i in st.queue[n] ==> i.waits !! HistoryHashes(st.history)
  {
    RunKeepsInv(cfg, cores, blocks);
    var st, ever := Run(cfg, cores, blocks).value.state, Run(cfg, cores, blocks).value.ever;
    forall n, i | 0 <= n < |st.queue| && i in st.queue[n]
      ensures i.waits !! HistoryHashes(st.history)
    {
      assert ItemWaits(i, HistoryHashes(st.history), ever);
    }
  }

  /**
   In the last block of any valid run, wherever the gas cuts the list, each accumulated
   report comes after everything it depends on.
   */
  lemma RunsAccumulateInOrder(cfg: Config, cores: nat, blocks: seq<Block>, b: Block)
    requires cfg.Valid() && cfg.recent >= 1
    requires Run(cfg, cores, blocks + [b]).Some?
    ensures Run(cfg, cores, blocks).Some?
    ensures var t := Run(cfg, cores, blocks).value;
            && |t.state.queue| == cfg.epoch && |t.state.history| == cfg.epoch && cfg.epoch >= 1
            && NoTwice(Accumulated(cfg, t.state, b))
            && DependenciesFirst(Accumulated(cfg, t.state, b), t.ever)
  {
    assert (blocks + [b])[..|blocks + [b]| - 1] == blocks;
    RunKeepsInv(cfg, cores, blocks);
    var t := Run(cfg, cores, blocks).value;
    StepIsSafe(cfg, t.state, b, t.ever);
  }
}
