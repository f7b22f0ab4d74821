/** Exactly when the recent history is long enough to keep a report from entering twice. */
module RecentWindow {
  import opened Octets
  import opened Options
  import opened AccumulationQueue
  import opened WorkPipeline
  import opened PipelineSafety

  ghost predicate AlwaysExclusive(cfg: Config) {
    forall cores: nat, blocks: seq<Block> ::
      Run(cfg, cores, blocks).Some? ==> Exclusive(Run(cfg, cores, blocks).value.state)
  }

  // ---------------------------------------------------------------- a run that reports a package twice

  function Twin(): Report {
    Report(ZeroHash(), 0, {}, {}, 0)
  }

  function Reporting(slot: nat, assurances: seq<set<nat>>): Block {
    Block(slot, {}, assurances, 1, 1, [Twin()], 1, true)
  }

  function Empty(slot: nat): Block {
    Block(slot, {}, [], 1, 1, [], 0, true)
  }

  /** One report, then `k` empty blocks. */
  function Idle(k: nat): seq<Block> {
    if k == 0 then [Reporting(1, [])] else Idle(k - 1) + [Empty(k + 1)]
  }

  function Forgetting(cfg: Config, k: nat): seq<RecentBlock> {
    if k == 0 then NextRecent(cfg, [], 1, [Twin()]) else NextRecent(cfg, Forgetting(cfg, k - 1), k + 1, [])
  }

  lemma {:induction false} Forgotten(cfg: Config, k: nat)
    ensures |Forgetting(cfg, k)| == if k < cfg.recent then k + 1 else cfg.recent
    ensures forall n :: 0 <= n < |Forgetting(cfg, k)| && (n > 0 || k >= cfg.recent) ==>
            Forgetting(cfg, k)[n].reported == {}
    ensures k >= cfg.recent ==> RecentHashes(Forgetting(cfg, k)) == {}
  {
    assert Hashes([]) == {};
    if k > 0 {
      Forgotten(cfg, k - 1);
    }
  }

  function IdleState(cfg: Config, k: nat): (st: Pipeline)
    ensures |st.queue| == cfg.epoch && |st.history| == cfg.epoch
  {
    Pipeline(k + 1, [Some(Pending(Twin(), 1))], seq(cfg.epoch, _ => []), seq(cfg.epoch, _ => {}), Forgetting(cfg, k))
  }

  lemma {:induction false} FlattenEmpty(queue: seq<seq<Item>>)
    requires forall n :: 0 <= n < |queue| ==> queue[n] == []
    ensures Flatten(queue) == []
  {
    if queue != [] {
      FlattenEmpty(queue[..|queue| - 1]);
    }
  }

  predicate Quiet(cfg: Config, st: Pipeline) {
    cfg.epoch >= 1 && st.queue == seq(cfg.epoch, _ => []) && |st.history| == cfg.epoch
  }

  /** With an empty queue, just what becomes available is accumulated, and nothing is queued. */
  lemma QuietAccumulation(cfg: Config, st: Pipeline, b: Block, available: seq<Report>)
    requires Quiet(cfg, st) && (available == [] || available == [Twin()])
    ensures Queued(available, st.history) == []
    ensures Accumulatable(cfg, st, b, available) == available
  {
    hide HistoryHashes, Hashes;
    FlattenEmpty(st.queue[b.slot % cfg.epoch..]);
    FlattenEmpty(st.queue[..b.slot % cfg.epoch]);
    assert Waiting([]) == [] && Ready([]) == [];
    if available == [Twin()] {
      assert available[..|available| - 1] == [];
      assert Waiting(available) == [] && Ready(available) == available;
    }
  }

  /** Which state a block leads to when the queue is empty and at most the twin is available. */
  lemma QuietStep(cfg: Config, st: Pipeline, b: Block, disputed: Cores, cores: Cores, available: seq<Report>)
    requires Quiet(cfg, st) && b.otherwiseValid && b.slot > st.slot
    requires disputed == AfterDisputes(st.cores, b.rejected) && cores == AfterAssurances(cfg, disputed, b)
    requires Engaged(disputed, b.assurances) && ValidGuarantees(st, cores, b.guarantees)
    requires available == Available(disputed, b) && (available == [] || (available == [Twin()] && b.accumulated == 1))
    ensures var r := Step(cfg, st, b);
            && r.Some? && r.value.slot == b.slot && r.value.cores == AfterGuarantees(cores, b.guarantees, b.slot)
            && r.value.recent == NextRecent(cfg, st.recent, b.slot, b.guarantees)
            && r.value.history == st.history[1..] + [Hashes(available)]
            && r.value.queue == st.queue
  {
    hide Accumulatable, Queued, NextRecent, Engaged, ValidGuarantees, AfterGuarantees, Hashes, Available;
    QuietAccumulation(cfg, st, b, available);
    assert Accumulated(cfg, st, b) == available;
    var done := Hashes(available);
    assert NextQueue(cfg, st, b.slot, [], done) == st.queue;
  }

  lemma {:induction false} IdleRun(cfg: Config, k: nat)
    requires cfg.epoch >= 1 && (k == 0 || k < cfg.timeout)
    ensures Run(cfg, 1, Idle(k)).Some? && Run(cfg, 1, Idle(k)).value.state == IdleState(cfg, k)
  {
    hide Step, Accumulated, IdleState, Empty, Reporting;
    if k == 0 {
      FirstStep(cfg);
      assert Idle(0)[..0] == [];
    } else {
      IdleRun(cfg, k - 1);
      assert Idle(k)[..|Idle(k)| - 1] == Idle(k - 1);
      IdleStep(cfg, k);
    }
  }

  lemma IdleStep(cfg: Config, k: nat)
    requires cfg.epoch >= 1 && 0 < k < cfg.timeout
    ensures Step(cfg, IdleState(cfg, k - 1), Empty(k + 1)) == Some(IdleState(cfg, k))
  {
    hide Step, NextRecent;
    var st, b := IdleState(cfg, k - 1), Empty(k + 1);
    assert AfterDisputes(st.cores, {}) == st.cores;
    assert AfterAssurances(cfg, st.cores, b) == st.cores;
    assert Available(st.cores, b) == [] by {
      assert st.cores[..0] == [];
    }
    assert Hashes([]) == {};
    QuietStep(cfg, st, b, st.cores, st.cores, []);
    assert st.history[1..] + [{}] == st.history;
  }

  lemma FirstStep(cfg: Config)
    requires cfg.epoch >= 1
    ensures Step(cfg, Genesis(cfg, 1), Reporting(1, [])) == Some(IdleState(cfg, 0))
  {
    hide Step, NextRecent;
    var st, b := Genesis(cfg, 1), Reporting(1, []);
    assert AfterDisputes(st.cores, {}) == st.cores;
    assert AfterAssurances(cfg, st.cores, b) == st.cores;
    assert Available(st.cores, b) == [] by {
      assert st.cores[..0] == [];
    }
    assert Hashes([]) == {};
    TwinIsNew(st, st.cores);
    QuietStep(cfg, st, b, st.cores, st.cores, []);
    assert st.history[1..] + [{}] == st.history;
    assert AfterGuarantees(st.cores, [Twin()], 1) == IdleState(cfg, 0).cores by {
      assert [Twin()][..0] == [];
    }
  }

  lemma TwinIsNew(st: Pipeline, cores: Cores)
    requires RecentHashes(st.recent) == {} && cores == [None]
    requires forall n :: 0 <= n < |st.queue| ==> st.queue[n] == []
    requires forall n :: 0 <= n < |st.history| ==> st.history[n] == {}
    ensures ValidGuarantees(st, cores, [Twin()])
  {
    assert HistoryHashes(st.history) == {} && QueueNames(st.queue) == {} && PendingHashes(cores) == {};
    assert Twin().Dependencies() == {};
  }

  /** The twin becomes available and is accumulated in the block that reports it again. */
  lemma TwinReturns(cfg: Config)
    requires cfg.epoch >= 1
    ensures var r := Step(cfg, IdleState(cfg, cfg.recent), Reporting(cfg.recent + 2, [{0}]));
            r.Some? && Twin().hash in PendingHashes(r.value.cores) && Twin().hash in HistoryHashes(r.value.history)
  {
    hide Step, NextRecent;
    var st, b := IdleState(cfg, cfg.recent), Reporting(cfg.recent + 2, [{0}]);
    Forgotten(cfg, cfg.recent);
    assert AfterDisputes(st.cores, {}) == st.cores;
    assert Votes([{0}], 0) == 1 by {
      assert [{0}][..0] == [];
    }
    assert AllEngaged(st.cores, b.assurances[0]);
    assert AfterAssurances(cfg, st.cores, b) == [None];
    assert Available(st.cores, b) == [Twin()] by {
      assert st.cores[..0] == [];
    }
    TwinIsNew(st, [None]);
    QuietStep(cfg, st, b, st.cores, [None], [Twin()]);
    var r := Step(cfg, st, b).value;
    assert r.cores == [Some(Pending(Twin(), b.slot))] by {
      assert [Twin()][..0] == [];
    }
    assert Twin() in [Twin()];
    assert r.cores[0].value.report.hash == Twin().hash;
    assert Twin().hash in r.history[|r.history| - 1];
  }

  /**
   No package is ever in two places, whatever the run, if and only if there is a recent
   history at all and the availability timeout does not exceed it.
   */
  lemma ExclusiveExactly(cfg: Config)
    requires cfg.epoch >= 1
    ensures AlwaysExclusive(cfg) <==> 1 <= cfg.recent && cfg.timeout <= cfg.recent
  {
    hide Step, Accumulated;
    if 1 <= cfg.recent && cfg.timeout <= cfg.recent {
      forall cores: nat, blocks: seq<Block> | Run(cfg, cores, blocks).Some?
        ensures Exclusive(Run(cfg, cores, blocks).value.state)
      {
        RunKeepsInv(cfg, cores, blocks);
      }
    } else {
      var b := Reporting(cfg.recent + 2, [{0}]);
      var blocks := Idle(cfg.recent) + [b];
      IdleRun(cfg, cfg.recent);
      TwinReturns(cfg);
      assert blocks[..|blocks| - 1] == Idle(cfg.recent);
      assert Run(cfg, 1, blocks).Some?;
      assert !Exclusive(Run(cfg, 1, blocks).value.state);
    }
  }
}
