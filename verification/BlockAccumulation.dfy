/** The accumulation of a whole block: rounds whose invocations run any code and whose outputs are merged. */
module BlockAccumulation {
  import opened Octets
  import opened Options
  import opened FiniteSums
  import opened Services
  import opened HostCalls
  import opened Availability
  import opened Invocation
  import opened ParallelMerge
  import opened Rounds
  import Sequential = SequentialAccumulation

  /** What an invocation leaves for the merge: its pending changes, and the preimages it provides. */
  datatype Left = Left(pending: PendingChanges, provided: seq<(Id, Bytes)>)

  type Output = (Id, Sequential.Invoked<Left>)
  type Invoke = (World, Id, seq<Transfer>, seq<Sequential.Digest>, nat) -> Sequential.Invoked<Left>

  // ---------------------------------------------------------------- the machine

  function AllProvided(env: Env, w: World, provided: seq<(Id, Bytes)>): World {
    if provided == [] then w
    else
      var (s, blob) := provided[|provided| - 1];
      Provided(env, AllProvided(env, w, provided[..|provided| - 1]), s, blob)
  }

  /** The provisions of all outputs in turn. */
  function Integrated(env: Env, w: World, outputs: seq<Output>): World {
    if outputs == [] then w
    else
      AllProvided(env, Integrated(env, w, outputs[..|outputs| - 1]), outputs[|outputs| - 1].1.changes.provided)
  }

  function Changes(outputs: seq<Output>): seq<ParallelMerge.Output> {
    seq(|outputs|, n requires 0 <= n < |outputs| => ParallelMerge.Output(outputs[n].0, outputs[n].1.changes.pending))
  }

  /** One round's outputs: the changes are merged first, then the preimages are integrated. */
  function MergeRound(env: Env, before: World, outputs: seq<Output>): Option<World> {
    match Merge(before, Changes(outputs))
    case None => None
    case Some(p) => Some(Integrated(env, View(before, p), outputs))
  }

  function MachineOf(env: Env, invoke: Invoke): Sequential.Machine<World, Left> {
    Sequential.Machine(invoke, (before, outputs) => MergeRound(env, before, outputs))
  }

  // ---------------------------------------------------------------- any code

  /** The output is what the run of some code leaves, given these transfers and this gas. */
  ghost predicate RanAs(env: Env, before: World, id: Id, ts: seq<Transfer>, g: nat, o: Sequential.Invoked<Left>,
      v: Invoked) {
    && v.transfers == ts && v.limit == g && Startable(env, before, id, v)
    && LeftBy(env, before, ParallelMerge.Output(id, o.changes.pending), v)
    && var i := Run(env, StartOf(before, id, v), v.events);
       && o.transfers == Outcome(i).transfers && o.gasUsed == GasUsed(g, i)
       && o.changes.provided == Outcome(i).provided
  }

  /** An invocation runs some code; of a service without an account it does nothing. */
  ghost predicate RunsSomeCode(env: Env, before: World, id: Id, ts: seq<Transfer>, g: nat,
      o: Sequential.Invoked<Left>) {
    || (o.changes == Left(NoChanges(), []) && o.transfers == [] && o.gasUsed == 0)
    || exists v: Invoked :: RanAs(env, before, id, ts, g, o, v)
  }

  /** The services are in order, and their past is that of the services at the start of the block. */
  ghost predicate Good(env: Env, start: World, w: World) {
    Orderly(env, w) && SamePast(env, start, w)
  }

  ghost predicate RunsAnyCode(env: Env, start: World, invoke: Invoke) {
    forall w, id, ts, ds, g :: Good(env, start, w) ==> RunsSomeCode(env, w, id, ts, g, invoke(w, id, ts, ds, g))
  }

  lemma CodeIsMetered(env: Env, w: World, id: Id, ts: seq<Transfer>, g: nat, o: Sequential.Invoked<Left>)
    requires RunsSomeCode(env, w, id, ts, g, o)
    ensures Sequential.MeteredBy(o, g)
    ensures Produced(env, w, ParallelMerge.Output(id, o.changes.pending))
  {
    hide Ready, Spacious, Run, Credited, Outcome, GasUsed, InOrder, LeftBy;
    if o.changes == Left(NoChanges(), []) && o.transfers == [] && o.gasUsed == 0 {
      NoTransfers();
    } else {
      var v: Invoked :| RanAs(env, w, id, ts, g, o, v);
      InvocationIsSafe(env, w, id, v.nextId, ts, g, v.events);
    }
  }

  // ---------------------------------------------------------------- one round

  lemma SamePastThrough(env: Env, u: World, v: World, w: World)
    requires SamePast(env, u, v) && SamePast(env, v, w)
    ensures SamePast(env, u, w)
  {
    hide AvailableAt, Past;
  }

  lemma {:induction false} ProvidedIsGood(env: Env, start: World, w: World, provided: seq<(Id, Bytes)>)
    requires Good(env, start, w)
    ensures Good(env, start, AllProvided(env, w, provided))
  {
    hide Orderly, SamePast, Provided;
    if provided != [] {
      var n := |provided| - 1;
      ProvidedIsGood(env, start, w, provided[..n]);
      var v, d := AllProvided(env, w, provided[..n]), Provision(provided[n].0, provided[n].1);
      StageIsOrderly(env, v, Arrival(d), Changed(env, v, d));
      SamePastThrough(env, start, v, Changed(env, v, d));
    }
  }

  lemma {:induction false} IntegratedIsGood(env: Env, start: World, w: World, outputs: seq<Output>)
    requires Good(env, start, w)
    ensures Good(env, start, Integrated(env, w, outputs))
  {
    hide Good;
    if outputs != [] {
      var n := |outputs| - 1;
      IntegratedIsGood(env, start, w, outputs[..n]);
      ProvidedIsGood(env, start, Integrated(env, w, outputs[..n]), outputs[n].1.changes.provided);
    }
  }

  lemma MergedIsGood(env: Env, start: World, w: World, outputs: seq<Output>)
    requires Good(env, start, w) && MergeRound(env, w, outputs).Some?
    requires forall i, j :: 0 <= i < j < |outputs| ==> outputs[i].0 != outputs[j].0
    requires forall o :: o in outputs ==> Produced(env, w, ParallelMerge.Output(o.0, o.1.changes.pending))
    ensures Good(env, start, MergeRound(env, w, outputs).value)
  {
    hide Orderly, SamePast, Produced, Merge, View, Integrated;
    var p := Merge(w, Changes(outputs)).value;
    RoundIsOrderly(env, w, Changes(outputs), p);
    SamePastThrough(env, start, w, View(w, p));
    IntegratedIsGood(env, start, View(w, p), outputs);
  }

  lemma RoundIsGood(env: Env, start: World, invoke: Invoke, w: World, ts: seq<Transfer>, rs: seq<Sequential.Report>,
                    always: map<Id, nat>)
    requires RunsAnyCode(env, start, invoke) && Good(env, start, w)
    requires Sequential.RoundOf(MachineOf(env, invoke), w, ts, rs, always).Some?
    ensures Good(env, start, Sequential.RoundOf(MachineOf(env, invoke), w, ts, rs, always).value.state)
  {
    hide Good, RunsSomeCode, Produced, MergeRound, Sequential.TransfersTo, Sequential.DigestsFor, Sequential.Allotment,
      Sequential.Emitted, Sequential.Used, Sequential.Committed;
    var ids := Sequential.Concerned(ts, rs, always);
    var outputs := Sequential.Outputs(MachineOf(env, invoke), w, ts, rs, always, ids);
    forall o | o in outputs
      ensures Produced(env, w, ParallelMerge.Output(o.0, o.1.changes.pending))
    {
      CodeIsMetered(env, w, o.0, Sequential.TransfersTo(ts, o.0), Sequential.Allotment(ts, rs, always, o.0), o.1);
    }
    MergedIsGood(env, start, w, outputs);
  }

  lemma BlockRuns(env: Env, start: World, invoke: Invoke)
    requires RunsAnyCode(env, start, invoke) && Orderly(env, start)
    ensures Sequential.Runs(MachineOf(env, invoke), w => Good(env, start, w), start)
  {
    hide Orderly, RunsSomeCode, Sequential.RoundOf, AvailableAt, Past;
    var m, good := MachineOf(env, invoke), (w: World) => Good(env, start, w);
    forall w, id, ts, ds, g | good(w)
      ensures Sequential.MeteredBy(m.invoke(w, id, ts, ds, g), g)
    {
      CodeIsMetered(env, w, id, ts, g, invoke(w, id, ts, ds, g));
    }
    forall w, ts, rs, always | good(w) && Sequential.RoundOf(m, w, ts, rs, always).Some?
      ensures good(Sequential.RoundOf(m, w, ts, rs, always).value.state)
    {
      RoundIsGood(env, start, invoke, w, ts, rs, always);
    }
  }

  // ---------------------------------------------------------------- the whole block

  /**
   Through all rounds of a block, whatever code the services run: gas is bounded and every
   transfer paid for; footprints and deposits are exact, nothing is orphaned, and no answer
   about a past slot changes.
   */
  lemma BlockIsSafe(env: Env, start: World, invoke: Invoke, limit: nat, rs: seq<Sequential.Report>,
      always: map<Id, nat>)
    requires RunsAnyCode(env, start, invoke) && Orderly(env, start) && SumValues(always) <= limit
    ensures var m, good := MachineOf(env, invoke), (w: World) => Good(env, start, w);
            && Sequential.Runs(m, good, start) && Sequential.Reserved(limit, [], always)
            && var o := Sequential.Accumulate(m, good, limit, [], rs, start, always);
               o.Some? ==>
                 && Sequential.Bounded(limit, [], rs, o.value)
                 && Orderly(env, o.value.state) && SamePast(env, start, o.value.state)
  {
    hide Sequential.Bounded, Sequential.Runs, Orderly, SamePast, RunsAnyCode, SumValues, Sequential.Accumulate;
    BlockRuns(env, start, invoke);
    var m, good := MachineOf(env, invoke), (w: World) => Good(env, start, w);
    if Sequential.Accumulate(m, good, limit, [], rs, start, always).Some? {
      Sequential.GasIsBounded(m, good, limit, [], rs, start, always);
    }
  }
}
