/** What past lookups find, through the whole accumulation of a block. */
module BlobHistory {
  import opened Octets
  import opened Options
  import opened FiniteSums
  import opened Services
  import opened ServiceIds
  import opened HostCalls
  import opened Footprints
  import opened Balances
  import opened Availability
  import opened Invocation
  import opened ParallelMerge
  import opened MergeLaws
  import opened Rounds
  import opened BlockAccumulation
  import Sequential = SequentialAccumulation

  type Lengths = Hash -> nat

  ghost predicate SameLookups(env: Env, v: World, w: World) {
    forall b: BlobKey, t: int :: Past(env, t) ==> HistoricalLookup(w, b, t) == HistoricalLookup(v, b, t)
  }

  /** The blobs are in order, and past lookups find what they found at the start. */
  ghost predicate Recalls(env: Env, length: Lengths, start: World, w: World) {
    Tidy(env, length, w) && SameLookups(env, start, w)
  }

  lemma RecallsThrough(env: Env, length: Lengths, u: World, v: World, w: World)
    requires SameLookups(env, u, v) && Recalls(env, length, v, w)
    ensures Recalls(env, length, u, w)
  {
    hide HistoricalLookup, Past, Tidy;
  }

  lemma RecallsItself(env: Env, length: Lengths, w: World)
    requires Tidy(env, length, w)
    ensures Recalls(env, length, w, w)
  {
  }

  lemma ChangeRecalls(env: Env, length: Lengths, start: World, w: World, d: Change)
    requires Recalls(env, length, start, w) && Honest(env, length, d)
    ensures Recalls(env, length, start, Changed(env, w, d))
  {
    hide Tidy, Honest, Changed, HistoricalLookup, Past;
    forall b: BlobKey, t: int
      ensures Past(env, t) ==> HistoricalLookup(Changed(env, w, d), b, t) == HistoricalLookup(w, b, t)
    {
      ChangeKeepsBlobs(env, w, d, length, b, t);
    }
    ChangeKeepsBlobs(env, w, d, length, BlobKey(0, ZeroHash()), 0);
  }

  // ---------------------------------------------------------------- one invocation

  predicate TrueBlob(env: Env, length: Lengths, blob: Bytes) {
    |blob| == length(env.hash(blob))
  }

  predicate TrueBlobs(env: Env, length: Lengths, provided: seq<(Id, Bytes)>) {
    forall k :: 0 <= k < |provided| ==> TrueBlob(env, length, provided[k].1)
  }

  /** The call only names hashes at the length of their blobs. */
  predicate HonestCall(env: Env, length: Lengths, call: Call) {
    && Honest(env, length, Called(0, 0, call))
    && (call.Provide? && call.blob.Readable? ==> TrueBlob(env, length, call.blob.octets))
  }

  predicate HonestRun(env: Env, length: Lengths, events: seq<Event>) {
    forall k :: 0 <= k < |events| && events[k].Host? ==> HonestCall(env, length, events[k].call)
  }

  ghost predicate ContextRecalls(env: Env, length: Lengths, start: World, c: Context) {
    Recalls(env, length, start, c.world) && TrueBlobs(env, length, c.provided)
  }

  lemma ProvidedStayTrue(env: Env, length: Lengths, c: Context, call: Call)
    requires Callable(c) && HonestCall(env, length, call) && TrueBlobs(env, length, c.provided)
    ensures TrueBlobs(env, length, Apply(env, c, call).0.provided)
  {
    hide SomeIdIsFree, EjectorCode, NewAccount;
  }

  lemma CallKeepsTidy(env: Env, length: Lengths, c: Context, call: Call)
    requires Tidy(env, length, c.world) && Callable(c) && c.nextId !in c.world.accounts
    requires Honest(env, length, Called(c.self, c.nextId, call))
    ensures Recalls(env, length, c.world, Apply(env, c, call).0.world)
  {
    hide Apply, Honest, SomeIdIsFree, Sound, TrueLengths, Answered, HistoricalLookup, Past;
    var after := Apply(env, c, call).0.world;
    CallKeepsSound(env, c, call);
    SoundIsOwned(env, c.world);
    forall b: BlobKey, t: int
      ensures Past(env, t) ==> HistoricalLookup(after, b, t) == HistoricalLookup(c.world, b, t)
    {
      CallKeepsBlobs(env, c, call, length, b, t);
    }
    CallKeepsBlobs(env, c, call, length, BlobKey(0, ZeroHash()), 0);
  }

  lemma CallRecalls(env: Env, length: Lengths, start: World, c: Context, call: Call)
    requires ContextRecalls(env, length, start, c) && Named(c) && Callable(c) && HonestCall(env, length, call)
    ensures ContextRecalls(env, length, start, Apply(env, c, call).0)
  {
    hide Apply, TrueBlobs, Honest, HonestCall, IsPublic, SomeIdIsFree, Tidy, SameLookups;
    ProvidedStayTrue(env, length, c, call);
    HonestAnyway(env, length, c, call);
    CallKeepsTidy(env, length, c, call);
    RecallsThrough(env, length, start, c.world, Apply(env, c, call).0.world);
  }

  lemma HonestAnyway(env: Env, length: Lengths, c: Context, call: Call)
    requires HonestCall(env, length, call)
    ensures Honest(env, length, Called(c.self, c.nextId, call))
  {
  }

  ghost predicate BothRecall(env: Env, length: Lengths, start: World, i: Invocation) {
    ContextRecalls(env, length, start, i.regular) && ContextRecalls(env, length, start, i.savepoint)
  }

  lemma StepRecalls(env: Env, length: Lengths, start: World, i: Invocation, e: Event)
    requires BothRecall(env, length, start, i) && Named(i.regular) && Callable(i.regular)
    requires e.Host? ==> HonestCall(env, length, e.call)
    ensures BothRecall(env, length, start, Step(env, i, e))
  {
    hide ContextRecalls, Named, SomeIdIsFree, HonestCall, Apply, Price;
    if e.Host? {
      CallRecalls(env, length, start, i.regular, e.call);
    }
  }

  /** At every moment of every honest run, both contexts find what was found before. */
  lemma {:induction false} RunRecalls(env: Env, length: Lengths, before: World, start: Invocation, events: seq<Event>)
    requires Spacious(env, start, events) && HonestRun(env, length, events)
    requires BothRecall(env, length, before, start)
    ensures BothRecall(env, length, before, Run(env, start, events))
  {
    hide BothRecall, Named, SomeIdIsFree, HonestCall, HasRoom, Step;
    if events != [] {
      var front, i := events[..|events| - 1], Run(env, start, events[..|events| - 1]);
      RunRecalls(env, length, before, start, front);
      StepKeepsIds(env, i, events[|events| - 1]);
      StepRecalls(env, length, before, i, events[|events| - 1]);
    }
  }

  lemma CreditRecalls(env: Env, length: Lengths, w: World, self: Id, ts: seq<Transfer>)
    requires Tidy(env, length, w) && self in w.accounts
    ensures Recalls(env, length, w, Credited(w, self, ts))
  {
    hide Exact, Backed, NoEmptyValues, Amounts;
    var a := w.accounts[self].(balance := w.accounts[self].balance + Amounts(ts));
    CreditIs(w, self, ts);
    AccountChanged(env, w, self, a);
  }

  /** What an honest invocation leaves, for the merge and for the provisions. */
  lemma InvocationRecalls(env: Env, length: Lengths, w: World, self: Id, v: Invoked)
    requires Tidy(env, length, w) && Startable(env, w, self, v) && HonestRun(env, length, v.events)
    ensures ContextRecalls(env, length, w, Outcome(Run(env, StartOf(w, self, v), v.events)))
  {
    hide Tidy, Ready, Recalls, Credited, Spacious, HonestRun;
    StartableIs(env, w, self, v);
    CreditRecalls(env, length, w, self, v.transfers);
    RunRecalls(env, length, w, StartOf(w, self, v), v.events);
  }

  lemma StartableIs(env: Env, w: World, self: Id, v: Invoked)
    requires Startable(env, w, self, v)
    ensures self in w.accounts && Spacious(env, StartOf(w, self, v), v.events)
  {
  }

  // ---------------------------------------------------------------- the merge

  ghost predicate TidyAt(length: Lengths, w: World, id: Id) {
    && (forall k :: k in w.requests && k.id == id ==> k.size == length(k.hash))
    && (forall b :: b in w.blobs && b.id == id ==>
          && |w.blobs[b]| == length(b.hash)
          && var k := RequestKey(id, b.hash, length(b.hash)); k in w.requests && w.requests[k] != [])
  }

  lemma TidyEverywhere(env: Env, length: Lengths, w: World)
    requires Sound(env, w)
    ensures Tidy(env, length, w) <==> forall id :: TidyAt(length, w, id)
  {
    hide Sound;
    if forall id :: TidyAt(length, w, id) {
      forall b | b in w.blobs
        ensures |w.blobs[b]| == length(b.hash)
        ensures var k := RequestKey(b.id, b.hash, length(b.hash)); k in w.requests && w.requests[k] != []
      {
        assert TidyAt(length, w, b.id);
      }
      forall k | k in w.requests
        ensures k.size == length(k.hash)
      {
        assert TidyAt(length, w, k.id);
      }
    }
  }

  lemma SameEntriesRecall(length: Lengths, v: World, w: World, id: Id)
    requires SameFor(v, w, id) && TidyAt(length, v, id)
    ensures TidyAt(length, w, id)
    ensures forall b: BlobKey, t: int :: b.id == id ==> HistoricalLookup(w, b, t) == HistoricalLookup(v, b, t)
  {
    forall b: BlobKey, t: int | b.id == id
      ensures HistoricalLookup(w, b, t) == HistoricalLookup(v, b, t)
    {
      if b in v.blobs {
        SameAnswer(v, w, RequestKey(id, b.hash, |v.blobs[b]|), t);
      }
    }
  }

  lemma NothingToRecall(length: Lengths, w: World, id: Id)
    requires forall b :: b in w.blobs ==> b.id != id
    requires forall k :: k in w.requests ==> k.id != id
    ensures TidyAt(length, w, id)
    ensures forall b: BlobKey, t: int :: b.id == id ==> HistoricalLookup(w, b, t) == None
  {
  }

  /** One account after the merge: as its owner left it, as it was, or gone. */
  lemma MergeRecallsAt(env: Env, length: Lengths, before: World, outputs: seq<ParallelMerge.Output>, p: PendingChanges,
      id: Id)
    requires Merged(before, outputs, p) && Tidy(env, length, before)
    requires forall o :: o in outputs ==> Recalls(env, length, before, View(before, o.pending))
    ensures TidyAt(length, View(before, p), id)
    ensures forall b: BlobKey, t: int :: b.id == id && Past(env, t) ==>
              HistoricalLookup(View(before, p), b, t) == HistoricalLookup(before, b, t)
  {
    hide DeletedIn, View, Tidy, Merged, Owner, Existing, SameFor, TidyAt, HistoricalLookup, Past, Owned;
    if id in DeletedIn(before, outputs) {
      GoneRecalls(env, length, before, outputs, p, id);
    } else if o :| o in outputs && Owner(Existing(before, outputs), o, id) {
      TidyHere(env, length, View(before, o.pending), id);
      ComesFromOwner(before, outputs, p, o, id);
      SameEntriesRecall(length, View(before, o.pending), View(before, p), id);
    } else {
      TidyHere(env, length, before, id);
      Unowned(before, outputs, p, id);
      SameEntriesRecall(length, before, View(before, p), id);
    }
  }

  lemma TidyHere(env: Env, length: Lengths, w: World, id: Id)
    requires Tidy(env, length, w)
    ensures TidyAt(length, w, id) && Owned(w)
  {
    TidyEverywhere(env, length, w);
    SoundIsOwned(env, w);
    hide Sound;
  }

  lemma GoneRecalls(env: Env, length: Lengths, before: World, outputs: seq<ParallelMerge.Output>, p: PendingChanges,
      id: Id)
    requires Merged(before, outputs, p) && id in DeletedIn(before, outputs)
    requires forall o :: o in outputs ==> Recalls(env, length, before, View(before, o.pending))
    ensures TidyAt(length, View(before, p), id)
    ensures forall b: BlobKey, t: int :: b.id == id && Past(env, t) ==>
              HistoricalLookup(View(before, p), b, t) == HistoricalLookup(before, b, t)
  {
    hide View, Tidy, Merged, DeletedIn, TidyAt, HistoricalLookup, Past;
    forall o | o in outputs
      ensures Owned(View(before, o.pending))
    {
      TidyHere(env, length, View(before, o.pending), id);
    }
    var o := Deleter(before, outputs, id);
    DeletedLeavesNothing(before, outputs, p, id);
    NothingToRecall(length, View(before, p), id);
    NothingToRecall(length, View(before, o.pending), id);
  }

  lemma MergeRecalls(env: Env, length: Lengths, before: World, outputs: seq<ParallelMerge.Output>, p: PendingChanges)
    requires Merged(before, outputs, p) && Tidy(env, length, before) && Sound(env, View(before, p))
    requires forall o :: o in outputs ==> Recalls(env, length, before, View(before, o.pending))
    ensures Recalls(env, length, before, View(before, p))
  {
    hide View, Tidy, Merged, TidyAt, HistoricalLookup, Past, Sound;
    var w := View(before, p);
    forall id
      ensures TidyAt(length, w, id)
      ensures forall b: BlobKey, t: int :: b.id == id && Past(env, t) ==>
              HistoricalLookup(w, b, t) == HistoricalLookup(before, b, t)
    {
      MergeRecallsAt(env, length, before, outputs, p, id);
    }
    TidyEverywhere(env, length, w);
    forall b: BlobKey, t: int | Past(env, t)
      ensures HistoricalLookup(w, b, t) == HistoricalLookup(before, b, t)
    {
      MergeRecallsAt(env, length, before, outputs, p, b.id);
    }
  }

  // ---------------------------------------------------------------- one round

  /** An invocation runs some honest code, or does nothing. */
  ghost predicate RunsHonestCode(env: Env, length: Lengths, before: World, id: Id, ts: seq<Transfer>, g: nat,
      o: Sequential.Invoked<Left>) {
    || (o.changes == Left(NoChanges(), []) && o.transfers == [] && o.gasUsed == 0)
    || exists v: Invoked :: RanAs(env, before, id, ts, g, o, v) && HonestRun(env, length, v.events)
  }

  /** In order, with the past and the past lookups of the start. */
  ghost predicate Faithful(env: Env, length: Lengths, start: World, w: World) {
    Good(env, start, w) && Recalls(env, length, start, w)
  }

  ghost predicate RunsOnlyHonestCode(env: Env, length: Lengths, start: World, invoke: Invoke) {
    forall w, id, ts, ds, g :: Faithful(env, length, start, w) ==>
      RunsHonestCode(env, length, w, id, ts, g, invoke(w, id, ts, ds, g))
  }

  lemma HonestCodeRecalls(env: Env, length: Lengths, w: World, id: Id, ts: seq<Transfer>, g: nat,
      o: Sequential.Invoked<Left>)
    requires RunsHonestCode(env, length, w, id, ts, g, o) && Tidy(env, length, w)
    ensures RunsSomeCode(env, w, id, ts, g, o)
    ensures Recalls(env, length, w, View(w, o.changes.pending)) && TrueBlobs(env, length, o.changes.provided)
  {
    hide Tidy, Startable, Run, Outcome, GasUsed, Recalls, HonestRun;
    if o.changes == Left(NoChanges(), []) && o.transfers == [] && o.gasUsed == 0 {
      NothingChanged(w);
      RecallsItself(env, length, w);
    } else {
      var v: Invoked :| RanAs(env, w, id, ts, g, o, v) && HonestRun(env, length, v.events);
      InvocationRecalls(env, length, w, id, v);
    }
  }

  lemma {:induction false} ProvidedRecalls(env: Env, length: Lengths, start: World, w: World,
      provided: seq<(Id, Bytes)>)
    requires Recalls(env, length, start, w) && TrueBlobs(env, length, provided)
    ensures Recalls(env, length, start, AllProvided(env, w, provided))
  {
    hide Recalls, Provided, TrueBlob;
    if provided != [] {
      var n := |provided| - 1;
      ProvidedRecalls(env, length, start, w, provided[..n]);
      var d := Provision(provided[n].0, provided[n].1);
      TrueBlobIsHonest(env, length, d);
      ChangeRecalls(env, length, start, AllProvided(env, w, provided[..n]), d);
    }
  }

  lemma TrueBlobIsHonest(env: Env, length: Lengths, d: Change)
    requires d.Provision? && TrueBlob(env, length, d.blob)
    ensures Honest(env, length, d)
  {
  }

  lemma {:induction false} IntegratedRecalls(env: Env, length: Lengths, start: World, w: World,
      outputs: seq<BlockAccumulation.Output>)
    requires Recalls(env, length, start, w)
    requires forall o :: o in outputs ==> TrueBlobs(env, length, o.1.changes.provided)
    ensures Recalls(env, length, start, Integrated(env, w, outputs))
  {
    hide Recalls, TrueBlobs;
    if outputs != [] {
      var n := |outputs| - 1;
      IntegratedRecalls(env, length, start, w, outputs[..n]);
      ProvidedRecalls(env, length, start, Integrated(env, w, outputs[..n]), outputs[n].1.changes.provided);
    }
  }

  lemma MergedRecalls(env: Env, length: Lengths, start: World, w: World, outputs: seq<BlockAccumulation.Output>)
    requires Faithful(env, length, start, w) && MergeRound(env, w, outputs).Some?
    requires forall i, j :: 0 <= i < j < |outputs| ==> outputs[i].0 != outputs[j].0
    requires forall o :: o in outputs ==>
               && Produced(env, w, ParallelMerge.Output(o.0, o.1.changes.pending))
               && Recalls(env, length, w, View(w, o.1.changes.pending)) && TrueBlobs(env, length, o.1.changes.provided)
    ensures Faithful(env, length, start, MergeRound(env, w, outputs).value)
  {
    hide Orderly, SamePast, SameLookups, Tidy, Produced, Merge, View, Integrated, TrueBlobs;
    MergedIsGood(env, start, w, outputs);
    var p := Merge(w, Changes(outputs)).value;
    RoundIsOrderly(env, w, Changes(outputs), p);
    OrderlyIsSound(env, View(w, p));
    MergeRecalls(env, length, w, Changes(outputs), p);
    RecallsThrough(env, length, start, w, View(w, p));
    IntegratedRecalls(env, length, start, View(w, p), outputs);
  }

  lemma OrderlyIsSound(env: Env, w: World)
    requires Orderly(env, w)
    ensures Sound(env, w)
  {
  }

  lemma RoundRecalls(env: Env, length: Lengths, start: World, invoke: Invoke, w: World, ts: seq<Transfer>,
      rs: seq<Sequential.Report>, always: map<Id, nat>)
    requires RunsOnlyHonestCode(env, length, start, invoke) && Faithful(env, length, start, w)
    requires Sequential.RoundOf(MachineOf(env, invoke), w, ts, rs, always).Some?
    ensures Faithful(env, length, start, Sequential.RoundOf(MachineOf(env, invoke), w, ts, rs, always).value.state)
  {
    var ids := Sequential.Concerned(ts, rs, always);
    var outputs := Sequential.Outputs(MachineOf(env, invoke), w, ts, rs, always, ids);
    hide Good, SameLookups, Tidy, RunsHonestCode, RunsSomeCode, Produced, MergeRound, View, TrueBlobs,
      Sequential.TransfersTo, Sequential.DigestsFor, Sequential.Allotment, Sequential.Emitted, Sequential.Used,
      Sequential.Committed;
    forall o | o in outputs
      ensures Produced(env, w, ParallelMerge.Output(o.0, o.1.changes.pending))
      ensures Recalls(env, length, w, View(w, o.1.changes.pending)) && TrueBlobs(env, length, o.1.changes.provided)
    {
      var mine, g := Sequential.TransfersTo(ts, o.0), Sequential.Allotment(ts, rs, always, o.0);
      HonestCodeRecalls(env, length, w, o.0, mine, g, o.1);
      CodeIsMetered(env, w, o.0, mine, g, o.1);
    }
    MergedRecalls(env, length, start, w, outputs);
  }

  // ---------------------------------------------------------------- the whole block

  lemma HonestBlockRuns(env: Env, length: Lengths, start: World, invoke: Invoke)
    requires RunsOnlyHonestCode(env, length, start, invoke) && Faithful(env, length, start, start)
    ensures Sequential.Runs(MachineOf(env, invoke), w => Faithful(env, length, start, w), start)
  {
    hide Good, SameLookups, Tidy, RunsHonestCode, RunsSomeCode, Sequential.RoundOf;
    var m, good := MachineOf(env, invoke), (w: World) => Faithful(env, length, start, w);
    forall w, id, ts, ds, g | good(w)
      ensures Sequential.MeteredBy(m.invoke(w, id, ts, ds, g), g)
    {
      HonestCodeRecalls(env, length, w, id, ts, g, invoke(w, id, ts, ds, g));
      CodeIsMetered(env, w, id, ts, g, invoke(w, id, ts, ds, g));
    }
    forall w, ts, rs, always | good(w) && Sequential.RoundOf(m, w, ts, rs, always).Some?
      ensures good(Sequential.RoundOf(m, w, ts, rs, always).value.state)
    {
      RoundRecalls(env, length, start, invoke, w, ts, rs, always);
    }
  }

  lemma StartIsFaithful(env: Env, length: Lengths, start: World)
    requires Orderly(env, start) && Tidy(env, length, start)
    ensures Faithful(env, length, start, start)
  {
    hide Orderly, Tidy;
  }

  /**
   If the services name every hash at the length of its blob, then through all rounds of a
   block, its merges and its provisions, a lookup at a past slot finds the same blob or
   nothing as before.
   */
  lemma BlockRecalls(env: Env, length: Lengths, start: World, invoke: Invoke, limit: nat, rs: seq<Sequential.Report>,
      always: map<Id, nat>)
    requires RunsOnlyHonestCode(env, length, start, invoke)
    requires Orderly(env, start) && Tidy(env, length, start) && SumValues(always) <= limit
    ensures var m, good := MachineOf(env, invoke), (w: World) => Faithful(env, length, start, w);
            && Sequential.Runs(m, good, start) && Sequential.Reserved(limit, [], always)
            && var o := Sequential.Accumulate(m, good, limit, [], rs, start, always);
               o.Some? ==>
                 && Sequential.Bounded(limit, [], rs, o.value)
                 && Orderly(env, o.value.state) && Tidy(env, length, o.value.state)
                 && SameLookups(env, start, o.value.state)
  {
    hide Sequential.Bounded, Sequential.Runs, Orderly, SamePast, SameLookups, Tidy, RunsOnlyHonestCode, SumValues,
      Sequential.Accumulate;
    StartIsFaithful(env, length, start);
    HonestBlockRuns(env, length, start, invoke);
    var m, good := MachineOf(env, invoke), (w: World) => Faithful(env, length, start, w);
    if Sequential.Accumulate(m, good, limit, [], rs, start, always).Some? {
      Sequential.GasIsBounded(m, good, limit, [], rs, start, always);
    }
  }
}
