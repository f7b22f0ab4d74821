/**
 The life of a work report over whole runs of blocks: pending on a core, available,
 ready or queued, accumulated; with the windows that forget old blocks.
 */
module WorkPipeline {
  import opened Octets
  import opened Options
  import opened AccumulationQueue

  /** U, H and E: the availability timeout, the recent history and the epoch, in slots. */
  datatype Config = Config(timeout: nat, recent: nat, epoch: nat) {
    predicate Valid() {
      timeout <= recent && epoch >= 1
    }
  }

  datatype Pending = Pending(report: Report, slot: nat)
  type Cores = seq<Option<Pending>>

  datatype RecentBlock = RecentBlock(slot: nat, reported: set<Hash>)

  datatype Pipeline = Pipeline(
    slot: nat,
    cores: Cores,
    queue: seq<seq<Item>>,
    history: seq<set<Hash>>,
    recent: seq<RecentBlock>)

  /**
   One block, as far as it moves reports.  `rejected` are the reports with a bad or wonky
   verdict, `assurances` the cores each assurer vouches for, and `accumulated` the number
   of accumulatable reports the gas allows.  Signatures and the checks that only concern
   one report by itself are summed up in `otherwiseValid`.
   */
  datatype Block = Block(
    slot: nat,
    rejected: set<Report>,
    assurances: seq<set<nat>>,
    validators: nat,
    nextValidators: nat,
    guarantees: seq<Report>,
    accumulated: nat,
    otherwiseValid: bool)

  // ---------------------------------------------------------------- cores

  function AfterDisputes(cores: Cores, rejected: set<Report>): (r: Cores)
    ensures |r| == |cores|
    ensures forall c :: 0 <= c < |cores| ==>
              r[c] == if cores[c].Some? && cores[c].value.report in rejected then None else cores[c]
  {
    seq(|cores|, c requires 0 <= c < |cores| =>
      if cores[c].Some? && cores[c].value.report in rejected then None else cores[c])
  }

  function Votes(assurances: seq<set<nat>>, core: nat): nat {
    if assurances == [] then 0
    else Votes(assurances[..|assurances| - 1], core) + if core in assurances[|assurances| - 1] then 1 else 0
  }

  predicate Assured(b: Block, core: nat) {
    Votes(b.assurances, core) >= b.validators * 2 / 3 + 1
  }

  predicate Expired(cfg: Config, b: Block, p: Pending) {
    b.nextValidators != b.validators || b.slot >= p.slot + cfg.timeout
  }

  /** The reports that become available, in core order. */
  function Available(cores: Cores, b: Block): seq<Report> {
    if cores == [] then []
    else
      var m := |cores| - 1;
      Available(cores[..m], b) +
      if cores[m].Some? && Assured(b, m) then [cores[m].value.report] else []
  }

  function AfterAssurances(cfg: Config, cores: Cores, b: Block): (r: Cores)
    ensures |r| == |cores|
    ensures forall c :: 0 <= c < |cores| ==>
              r[c] == if cores[c].Some? && (Assured(b, c) || Expired(cfg, b, cores[c].value)) then None else cores[c]
  {
    seq(|cores|, c requires 0 <= c < |cores| =>
      if cores[c].Some? && (Assured(b, c) || Expired(cfg, b, cores[c].value)) then None else cores[c])
  }

  predicate Engaged(cores: Cores, assurances: seq<set<nat>>) {
    forall n :: 0 <= n < |assurances| ==> AllEngaged(cores, assurances[n])
  }

  predicate AllEngaged(cores: Cores, vouched: set<nat>) {
    forall c :: c in vouched ==> c < |cores| && cores[c].Some?
  }

  /** Counting the assurances core by core, in one pass over the extrinsic. */
  method ProcessAssurances(cfg: Config, cores: Cores, b: Block) returns (r: Option<Cores>, available: seq<Report>)
    ensures r == if Engaged(cores, b.assurances) then Some(AfterAssurances(cfg, cores, b)) else None
    ensures r.Some? ==> available == Available(cores, b)
  {
    var total: seq<nat> := seq(|cores|, _ => 0);
    available := [];
    for n := 0 to |b.assurances|
      invariant Engaged(cores, b.assurances[..n])
      invariant |total| == |cores|
      invariant forall c :: 0 <= c < |cores| ==> total[c] == Votes(b.assurances[..n], c)
    {
      assert b.assurances[..n + 1][..n] == b.assurances[..n];
      assert b.assurances[..n + 1][n] == b.assurances[n];
      if !AllEngaged(cores, b.assurances[n]) {
        return None, [];
      }
      total := seq(|cores|, c requires 0 <= c < |total| => total[c] + if c in b.assurances[n] then 1 else 0);
    }
    assert b.assurances[..|b.assurances|] == b.assurances;
    var after := cores;
    for c := 0 to |cores|
      invariant |after| == |cores|
      invariant forall k :: 0 <= k < c ==> after[k] == AfterAssurances(cfg, cores, b)[k]
      invariant forall k :: c <= k < |cores| ==> after[k] == cores[k]
      invariant available == Available(cores[..c], b)
    {
      assert cores[..c + 1][..c] == cores[..c];
      if cores[c].Some? {
        if total[c] >= b.validators * 2 / 3 + 1 {
          available := available + [cores[c].value.report];
          after := after[c := None];
        }
        if b.nextValidators != b.validators || b.slot >= cores[c].value.slot + cfg.timeout {
          after := after[c := None];
        }
      }
    }
    assert cores[..|cores|] == cores;
    assert after == AfterAssurances(cfg, cores, b);
    r := Some(after);
  }

  // ---------------------------------------------------------------- guarantees

  function PendingHashes(cores: Cores): set<Hash> {
    set c | 0 <= c < |cores| && cores[c].Some? :: cores[c].value.report.hash
  }

  function HistoryHashes(history: seq<set<Hash>>): set<Hash> {
    set n, h | 0 <= n < |history| && h in history[n] :: h
  }

  function QueueNames(queue: seq<seq<Item>>): set<Hash> {
    set n, i | 0 <= n < |queue| && i in queue[n] :: i.report.hash
  }

  function RecentHashes(recent: seq<RecentBlock>): set<Hash> {
    set n, h | 0 <= n < |recent| && h in recent[n].reported :: h
  }

  /** A new report's package must be nowhere in the pipeline, and its dependencies must be known. */
  predicate ValidGuarantees(st: Pipeline, cores: Cores, gs: seq<Report>) {
    && (forall a, b :: 0 <= a < b < |gs| ==> gs[a].core < gs[b].core)
    && NoTwice(gs)
    && Hashes(gs) !! RecentHashes(st.recent)
    && Hashes(gs) !! HistoryHashes(st.history)
    && Hashes(gs) !! QueueNames(st.queue)
    && Hashes(gs) !! PendingHashes(cores)
    && (forall n :: 0 <= n < |gs| ==> gs[n].core < |cores| && cores[gs[n].core].None?)
    && (forall n :: 0 <= n < |gs| ==> gs[n].Dependencies() <= RecentHashes(st.recent) + Hashes(gs))
  }

  function AfterGuarantees(cores: Cores, gs: seq<Report>, slot: nat): (r: Cores)
    requires forall n :: 0 <= n < |gs| ==> gs[n].core < |cores|
    ensures |r| == |cores|
  {
    if gs == [] then cores
    else
      var m := |gs| - 1;
      AfterGuarantees(cores, gs[..m], slot)[gs[m].core := Some(Pending(gs[m], slot))]
  }

  // ---------------------------------------------------------------- accumulation

  function Ready(available: seq<Report>): seq<Report> {
    if available == [] then []
    else
      Ready(available[..|available| - 1]) +
      if available[|available| - 1].Dependencies() == {} then [available[|available| - 1]] else []
  }

  function Waiting(available: seq<Report>): seq<Item> {
    if available == [] then []
    else
      var last := available[|available| - 1];
      Waiting(available[..|available| - 1]) + if last.Dependencies() != {} then [WithDependencies(last)] else []
  }

  function Queued(available: seq<Report>, history: seq<set<Hash>>): seq<Item> {
    EditQueue(Waiting(available), HistoryHashes(history))
  }

  function Flatten(buckets: seq<seq<Item>>): seq<Item> {
    if buckets == [] then [] else Flatten(buckets[..|buckets| - 1]) + buckets[|buckets| - 1]
  }

  function Candidates(cfg: Config, st: Pipeline, b: Block, available: seq<Report>): seq<Item>
    requires cfg.epoch >= 1 && |st.queue| == cfg.epoch
  {
    var m := b.slot % cfg.epoch;
    EditQueue(Flatten(st.queue[m..]) + Flatten(st.queue[..m]) + Queued(available, st.history), Hashes(Ready(available)))
  }

  /** The accumulatable reports, in the order in which they are accumulated. */
  function Accumulatable(cfg: Config, st: Pipeline, b: Block, available: seq<Report>): seq<Report>
    requires cfg.epoch >= 1 && |st.queue| == cfg.epoch
  {
    Ready(available) + PriorityQueue(Candidates(cfg, st, b, available))
  }

  /** The lists of reports a block collects on its way; none until the step that sets them. */
  class BlockContext {
    var available: Option<seq<Report>>
    var ready: Option<seq<Report>>
    var queued: Option<seq<Item>>
    var accumulatable: Option<seq<Report>>

    constructor (available: Option<seq<Report>>)
      ensures this.available == available && ready == None && queued == None && accumulatable == None
    {
      this.available, ready, queued, accumulatable := available, None, None, None;
    }

    method SetReady() returns (ok: bool)
      modifies this`ready
      ensures ok == available.Some?
      ensures ready == if ok then Some(Ready(available.value)) else old(ready)
    {
      if available.None? {
        return false;
      }
      var list, all := [], available.value;
      for n := 0 to |all|
        invariant list == Ready(all[..n])
      {
        assert all[..n + 1][..n] == all[..n];
        if all[n].prerequisites == {} && all[n].lookups == {} {
          list := list + [all[n]];
        }
      }
      assert all[..|all|] == all;
      ready := Some(list);
      ok := true;
    }

    method SetQueued(history: seq<set<Hash>>) returns (ok: bool)
      modifies this`queued
      ensures ok == available.Some?
      ensures queued == if ok then Some(Queued(available.value, history)) else old(queued)
    {
      if available.None? {
        return false;
      }
      var list, all: seq<Report> := [], available.value;
      for n := 0 to |all|
        invariant list == Waiting(all[..n])
      {
        assert all[..n + 1][..n] == all[..n];
        if all[n].prerequisites != {} || all[n].lookups != {} {
          list := list + [WithDependencies(all[n])];
        }
      }
      assert all[..|all|] == all;
      queued := Some(EditQueue(list, HistoryHashes(history)));
      ok := true;
    }

    /** Needs both lists; with those of the same available reports it gives the accumulatable ones. */
    method SetAccumulatable(cfg: Config, st: Pipeline, b: Block) returns (ok: bool)
      requires cfg.epoch >= 1 && |st.queue| == cfg.epoch
      modifies this`accumulatable
      ensures ok == (ready.Some? && queued.Some?)
      ensures !ok ==> accumulatable == old(accumulatable)
      ensures ok && available.Some?
              && ready.value == Ready(available.value) && queued.value == Queued(available.value, st.history) ==>
                accumulatable == Some(Accumulatable(cfg, st, b, available.value))
    {
      if ready.None? || queued.None? {
        return false;
      }
      var m := b.slot % cfg.epoch;
      var q := EditQueue(Flatten(st.queue[m..]) + Flatten(st.queue[..m]) + queued.value, Hashes(ready.value));
      accumulatable := Some(ready.value + PriorityQueue(q));
      ok := true;
    }
  }

  /** The distance from bucket `n` back to the current one, around the ring. */
  function Age(epoch: nat, m: nat, n: nat): nat
    requires m < epoch && n < epoch
  {
    if n <= m then m - n else m + epoch - n
  }

  function NextQueue(cfg: Config, st: Pipeline, slot: nat, queued: seq<Item>, done: set<Hash>): (r: seq<seq<Item>>)
    requires cfg.epoch >= 1 && |st.queue| == cfg.epoch && slot > st.slot
    ensures |r| == cfg.epoch
    ensures forall n :: 0 <= n < cfg.epoch ==> r[n] == NextBucket(cfg, st, slot, queued, done, n)
  {
    seq(cfg.epoch, n requires 0 <= n < cfg.epoch => NextBucket(cfg, st, slot, queued, done, n))
  }

  function NextBucket(cfg: Config, st: Pipeline, slot: nat, queued: seq<Item>, done: set<Hash>, n: nat): seq<Item>
    requires cfg.epoch >= 1 && |st.queue| == cfg.epoch && slot > st.slot && n < cfg.epoch
  {
    var age := Age(cfg.epoch, slot % cfg.epoch, n);
    if age == 0 then EditQueue(queued, done)
    else if age < slot - st.slot then []
    else EditQueue(st.queue[n], done)
  }

  /** Bucket by bucket back from the current one; a negative index counts from the end. */
  method TransitionQueue(cfg: Config, st: Pipeline, slot: nat, queued: seq<Item>, done: set<Hash>)
      returns (r: seq<seq<Item>>)
    requires cfg.epoch >= 1 && |st.queue| == cfg.epoch && slot > st.slot
    ensures r == NextQueue(cfg, st, slot, queued, done)
  {
    r := seq(cfg.epoch, _ => []);
    var m := slot % cfg.epoch;
    for i := 0 to cfg.epoch
      invariant |r| == cfg.epoch
      invariant forall n :: 0 <= n < cfg.epoch && Age(cfg.epoch, m, n) < i ==>
                r[n] == NextBucket(cfg, st, slot, queued, done, n)
    {
      var n := if m - i >= 0 then m - i else m - i + cfg.epoch;
      assert Age(cfg.epoch, m, n) == i;
      if i == 0 {
        r := r[n := EditQueue(queued, done)];
      } else if i < slot - st.slot {
        r := r[n := []];
      } else {
        r := r[n := EditQueue(st.queue[n], done)];
      }
    }
  }

  function NextRecent(cfg: Config, recent: seq<RecentBlock>, slot: nat, gs: seq<Report>): seq<RecentBlock> {
    var longer := recent + [RecentBlock(slot, Hashes(gs))];
    if |longer| > cfg.recent then longer[1..] else longer
  }

  /** The reports a block accumulates. */
  function Accumulated(cfg: Config, st: Pipeline, b: Block): seq<Report>
    requires cfg.epoch >= 1 && |st.queue| == cfg.epoch
  {
    var list := Accumulatable(cfg, st, b, Available(AfterDisputes(st.cores, b.rejected), b));
    if b.accumulated <= |list| then list[..b.accumulated] else list
  }

  /** The state after a block, or none if the block is invalid. */
  function Step(cfg: Config, st: Pipeline, b: Block): Option<Pipeline>
    requires cfg.epoch >= 1 && |st.queue| == cfg.epoch && |st.history| == cfg.epoch
  {
    var disputed := AfterDisputes(st.cores, b.rejected);
    if !b.otherwiseValid || b.slot <= st.slot || !Engaged(disputed, b.assurances) then None
    else
      var cores := AfterAssurances(cfg, disputed, b);
      if !ValidGuarantees(st, cores, b.guarantees) then None
      else
        var queued := Queued(Available(disputed, b), st.history);
        var done := Hashes(Accumulated(cfg, st, b));
        Some(Pipeline(
          b.slot,
          AfterGuarantees(cores, b.guarantees, b.slot),
          NextQueue(cfg, st, b.slot, queued, done),
          st.history[1..] + [done],
          NextRecent(cfg, st.recent, b.slot, b.guarantees)))
  }
}
