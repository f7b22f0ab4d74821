/** Whole rounds within a slot: invocations of any code, their merge, and the preimages that arrive after it. */
module Rounds {
  import opened Services
  import opened HostCalls
  import opened Footprints
  import opened Balances
  import opened Availability
  import opened Invocation
  import opened ParallelMerge
  import opened MergeLaws

  /** What one service's code did, and how it started. */
  datatype Invoked = Invoked(nextId: Id, transfers: seq<Transfer>, limit: nat, events: seq<Event>)

  function StartOf(before: World, self: Id, v: Invoked): Invocation {
    Started(Credited(before, self, v.transfers), self, v.nextId, v.limit)
  }

  ghost predicate Startable(env: Env, before: World, self: Id, v: Invoked) {
    Ready(env, before, self, v.nextId) && Spacious(env, StartOf(before, self, v), v.events)
  }

  /** The output's changes show the context that the invocation leaves. */
  ghost predicate LeftBy(env: Env, before: World, o: Output, v: Invoked)
    requires Startable(env, before, o.writer, v)
  {
    View(before, o.pending) == Outcome(Run(env, StartOf(before, o.writer, v), v.events)).world
  }

  /**
   An output is that of some invocation, if only of crediting the transfers; without an
   account there are no changes.
  */
  ghost predicate Produced(env: Env, before: World, o: Output) {
    o.pending == NoChanges() || exists v: Invoked :: Startable(env, before, o.writer, v) && LeftBy(env, before, o, v)
  }

  ghost predicate Orderly(env: Env, w: World) {
    Sound(env, w) && Solvent(w)
  }

  ghost predicate SamePast(env: Env, v: World, w: World) {
    forall k, t :: Past(env, t) ==> (AvailableAt(v, k, t) <==> AvailableAt(w, k, t))
  }

  lemma OutputIsOrderly(env: Env, before: World, o: Output)
    requires Orderly(env, before) && Produced(env, before, o)
    ensures Orderly(env, View(before, o.pending)) && SamePast(env, before, View(before, o.pending))
  {
    hide Sound, Solvent, AvailableAt, Past, LeftBy, Startable, Spacious, Run, Outcome, Credited;
    if o.pending == NoChanges() {
      NothingChanged(before);
    } else {
      var v: Invoked :| Startable(env, before, o.writer, v) && LeftBy(env, before, o, v);
      LeftIsOrderly(env, before, o, v);
    }
  }

  lemma NothingChanged(before: World)
    ensures View(before, NoChanges()) == before
  {
  }

  lemma LeftIsOrderly(env: Env, before: World, o: Output, v: Invoked)
    requires Startable(env, before, o.writer, v) && LeftBy(env, before, o, v)
    ensures Orderly(env, View(before, o.pending)) && SamePast(env, before, View(before, o.pending))
  {
    hide Sound, Solvent, AvailableAt, Past, Run, Outcome, Credited, Ready, Wealth, Named, Spacious;
    InvocationIsSafe(env, before, o.writer, v.nextId, v.transfers, v.limit, v.events);
  }

  /** The merge of a round's outputs keeps the books and the answers about the past. */
  lemma RoundIsOrderly(env: Env, before: World, outputs: seq<Output>, p: PendingChanges)
    requires Orderly(env, before) && Merged(before, outputs, p)
    requires forall o :: o in outputs ==> Produced(env, before, o)
    ensures Orderly(env, View(before, p)) && SamePast(env, before, View(before, p))
  {
    hide Sound, Solvent, AvailableAt, Past, Produced, Merged, SamePast;
    forall o | o in outputs
      ensures Orderly(env, View(before, o.pending)) && SamePast(env, before, View(before, o.pending))
    {
      OutputIsOrderly(env, before, o);
    }
    MergeKeepsSound(env, before, outputs, p);
    RoundKeepsPast(env, before, outputs, p);
  }

  lemma RoundKeepsPast(env: Env, before: World, outputs: seq<Output>, p: PendingChanges)
    requires Merged(before, outputs, p)
    requires forall o :: o in outputs ==>
               Orderly(env, View(before, o.pending)) && SamePast(env, before, View(before, o.pending))
    ensures SamePast(env, before, View(before, p))
  {
    hide Merged, Orderly, AvailableAt, Past;
    forall k, t | Past(env, t)
      ensures AvailableAt(before, k, t) <==> AvailableAt(View(before, p), k, t)
    {
      MergeKeepsAnswer(env, before, outputs, p, k, t);
    }
  }

  lemma MergeKeepsAnswer(env: Env, before: World, outputs: seq<Output>, p: PendingChanges, k: RequestKey, t: int)
    requires Merged(before, outputs, p) && Past(env, t)
    requires forall o :: o in outputs ==>
               Orderly(env, View(before, o.pending)) && SamePast(env, before, View(before, o.pending))
    ensures AvailableAt(before, k, t) <==> AvailableAt(View(before, p), k, t)
  {
    hide Merged, Owner, Existing, SameFor, Past, Available, View, Sound, Solvent;
    if k.id in DeletedIn(before, outputs) {
      forall o | o in outputs
        ensures Owned(View(before, o.pending))
      {
        SoundIsOwned(env, View(before, o.pending));
      }
      var o := Deleter(before, outputs, k.id);
      DeletedLeavesNothing(before, outputs, p, k.id);
      assert !AvailableAt(View(before, o.pending), k, t);
    } else if o :| o in outputs && Owner(Existing(before, outputs), o, k.id) {
      ComesFromOwner(before, outputs, p, o, k.id);
      SameAnswer(View(before, o.pending), View(before, p), k, t);
    } else {
      Unowned(before, outputs, p, k.id);
      SameAnswer(before, View(before, p), k, t);
    }
  }

  lemma SameAnswer(v: World, w: World, k: RequestKey, t: int)
    requires SameFor(v, w, k.id)
    ensures AvailableAt(v, k, t) <==> AvailableAt(w, k, t)
  {
    hide Available;
  }

  lemma Deleter(before: World, outputs: seq<Output>, id: Id) returns (o: Output)
    requires id in DeletedIn(before, outputs)
    ensures o in outputs && id !in View(before, o.pending).accounts
  {
    o :| o in outputs && id in o.pending.accounts && o.pending.accounts[id].None?;
  }

  // ---------------------------------------------------------------- a whole slot

  /** What leads from one state of the services to the next within a slot. */
  datatype Stage =
    | Round(outputs: seq<Output>, merged: PendingChanges)
    | Arrival(change: Change)

  ghost predicate Leads(env: Env, v: World, s: Stage, w: World) {
    match s
    case Round(outputs, p) =>
      Merged(v, outputs, p) && (forall o :: o in outputs ==> Produced(env, v, o)) && w == View(v, p)
    case Arrival(d) => !d.Called? && w == Changed(env, v, d)
  }

  ghost predicate IsSlot(env: Env, worlds: seq<World>, stages: seq<Stage>) {
    && |worlds| == |stages| + 1
    && forall i :: 0 <= i < |stages| ==> Leads(env, worlds[i], stages[i], worlds[i + 1])
  }

  lemma StageIsOrderly(env: Env, v: World, s: Stage, w: World)
    requires Orderly(env, v) && Leads(env, v, s, w)
    ensures Orderly(env, w) && SamePast(env, v, w)
  {
    hide Sound, AvailableAt, Past, Produced, Merged;
    match s {
      case Round(outputs, p) =>
        hide Solvent;
        RoundIsOrderly(env, v, outputs, p);
      case Arrival(d) =>
        ChangeKeepsSound(env, v, d);
        forall k, t | Past(env, t)
          ensures AvailableAt(v, k, t) <==> AvailableAt(w, k, t)
        {
          ChangeKeepsAnswer(env, v, d, k, t);
        }
    }
  }

  /**
   Through all rounds of a slot, whatever code the services run, and all preimages that
   arrive: footprints stay exact, deposits are kept, nothing is orphaned, and no answer
   about a past slot changes.
   */
  lemma {:induction false} SlotIsOrderly(env: Env, worlds: seq<World>, stages: seq<Stage>)
    requires IsSlot(env, worlds, stages) && Orderly(env, worlds[0])
    ensures Orderly(env, worlds[|stages|]) && SamePast(env, worlds[0], worlds[|stages|])
    decreases |stages|
  {
    hide Orderly, Leads, AvailableAt, Past;
    if stages != [] {
      var n := |stages| - 1;
      SlotIsOrderly(env, worlds[..n + 1], stages[..n]);
      StageIsOrderly(env, worlds[n], stages[n], worlds[n + 1]);
    }
  }
}
