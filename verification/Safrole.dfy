/** The life of tickets over epochs: accumulated, marked, and then sealing the next epoch. */
module Safrole {
  import opened Options
  import opened Powers
  import opened Tickets

  /** E, Y and K: the slots of an epoch, where submission ends in it, and the tickets a block may carry. */
  datatype Config = Config(epoch: nat, submissionEnd: nat, maxTickets: nat) {
    predicate Valid() {
      epoch % 2 == 0 && 0 < submissionEnd < epoch
    }

    function EpochOf(slot: nat): int
      requires Valid()
    {
      slot / epoch
    }

    function Phase(slot: nat): nat
      requires Valid()
    {
      slot % epoch
    }
  }

  /** What seals the blocks of an epoch: tickets, or the fallback keys. */
  datatype Series = ByTickets(tickets: seq<Ticket>) | ByKeys

  datatype State = State(slot: nat, accumulator: seq<Ticket>, series: Series)

  /** `repeats` says that an envelope occurs twice; `sound` that every envelope's proof is valid. */
  datatype Block = Block(slot: nat, tickets: seq<Ticket>, repeats: bool, sound: bool)

  predicate EpochChange(cfg: Config, pre: nat, post: nat)
    requires cfg.Valid()
  {
    cfg.EpochOf(pre) != cfg.EpochOf(post)
  }

  function Marker(cfg: Config, st: State, post: nat): Option<seq<Ticket>>
    requires cfg.Valid()
  {
    if !EpochChange(cfg, st.slot, post)
       && cfg.Phase(st.slot) < cfg.submissionEnd <= cfg.Phase(post)
       && |st.accumulator| == cfg.epoch
    then Some(OutsideIn(st.accumulator)) else None
  }

  predicate Fallback(cfg: Config, st: State, post: nat)
    requires cfg.Valid()
  {
    || |st.accumulator| != cfg.epoch
    || cfg.Phase(st.slot) < cfg.submissionEnd
    || cfg.EpochOf(post) - cfg.EpochOf(st.slot) > 1
  }

  function NextSeries(cfg: Config, st: State, post: nat): Series
    requires cfg.Valid()
  {
    if !EpochChange(cfg, st.slot, post) then st.series
    else if Fallback(cfg, st, post) then ByKeys
    else ByTickets(OutsideIn(st.accumulator))
  }

  predicate InOrder(ts: seq<Ticket>) {
    forall i :: 0 <= i < |ts| - 1 ==> ts[i].id <= ts[i + 1].id
  }

  predicate Acceptable(cfg: Config, st: State, b: Block)
    requires cfg.Valid()
  {
    && (if cfg.Phase(b.slot) < cfg.submissionEnd then |b.tickets| <= cfg.maxTickets else b.tickets == [])
    && !b.repeats && b.sound
    && (forall t :: t in b.tickets ==> !HasId(st.accumulator, t.id))
    && InOrder(b.tickets)
  }

  function NextAccumulator(cfg: Config, st: State, b: Block): seq<Ticket>
    requires cfg.Valid()
  {
    Lowest(cfg.epoch, Sort(if EpochChange(cfg, st.slot, b.slot) then b.tickets else b.tickets + st.accumulator))
  }

  /** The state after a block and the marker it emits, or none if it is invalid. */
  function Step(cfg: Config, st: State, b: Block): Option<(State, Option<seq<Ticket>>)>
    requires cfg.Valid()
  {
    var accumulator := NextAccumulator(cfg, st, b);
    if b.slot <= st.slot || !Acceptable(cfg, st, b) || (exists t :: t in b.tickets && t !in accumulator) then None
    else Some((State(b.slot, accumulator, NextSeries(cfg, st, b.slot)), Marker(cfg, st, b.slot)))
  }

  class SafroleState {
    var slot: nat
    var accumulator: seq<Ticket>
    var series: Series

    constructor (slot: nat, accumulator: seq<Ticket>, series: Series)
      ensures Value() == State(slot, accumulator, series)
    {
      this.slot, this.accumulator, this.series := slot, accumulator, series;
    }

    function Value(): State
      reads this
    {
      State(slot, accumulator, series)
    }

    /** The transition as it runs; a block that is refused leaves no new state. */
    method Transition(cfg: Config, b: Block) returns (ok: bool, marker: Option<seq<Ticket>>)
      requires cfg.Valid()
      modifies this
      ensures ok <==> Step(cfg, old(Value()), b).Some?
      ensures ok ==> Step(cfg, old(Value()), b) == Some((Value(), marker))
      ensures !ok ==> Value() == old(Value())
    {
      hide Sort, Lowest, OutsideIn;
      if b.slot <= slot {
        return false, None;
      }
      var change := EpochChange(cfg, slot, b.slot);
      marker := None;
      if !change && cfg.Phase(slot) < cfg.submissionEnd <= cfg.Phase(b.slot) {
        if |accumulator| == cfg.epoch {
          marker := Some(OutsideIn(accumulator));
        }
      }
      var next := series;
      if change {
        marker := None;
        next := if Fallback(cfg, Value(), b.slot) then ByKeys else ByTickets(OutsideIn(accumulator));
      }
      if cfg.Phase(b.slot) < cfg.submissionEnd {
        if |b.tickets| > cfg.maxTickets {
          return false, None;
        }
      } else if |b.tickets| > 0 {
        return false, None;
      }
      if b.repeats || !b.sound {
        return false, None;
      }
      for n := 0 to |b.tickets|
        invariant forall i :: 0 <= i < n ==> !HasId(accumulator, b.tickets[i].id)
      {
        if HasId(accumulator, b.tickets[n].id) {
          return false, None;
        }
      }
      if !InOrder(b.tickets) {
        return false, None;
      }
      var all := Lowest(cfg.epoch, Sort(if change then b.tickets else b.tickets + accumulator));
      if exists t :: t in b.tickets && t !in all {
        return false, None;
      }
      slot, accumulator, series := b.slot, all, next;
      ok := true;
    }
  }

  // ---------------------------------------------------------------- whole runs

  /** A run so far: what was submitted this epoch, the latest first, and the marker emitted in it. */
  datatype Trace = Trace(state: State, submitted: seq<Ticket>, marker: Option<seq<Ticket>>)

  function Advance(cfg: Config, t: Trace, b: Block): Option<Trace>
    requires cfg.Valid()
  {
    match Step(cfg, t.state, b)
    case None => None
    case Some((next, marker)) =>
      if EpochChange(cfg, t.state.slot, b.slot) then Some(Trace(next, b.tickets, marker))
      else Some(Trace(next, b.tickets + t.submitted, if marker.Some? then marker else t.marker))
  }

  function Run(cfg: Config, series: Series, blocks: seq<Block>): Option<Trace>
    requires cfg.Valid()
  {
    if blocks == [] then Some(Trace(State(0, [], series), [], None))
    else
      match Run(cfg, series, blocks[..|blocks| - 1])
      case None => None
      case Some(t) => Advance(cfg, t, blocks[|blocks| - 1])
  }

  /** The accumulator is the lowest of what was submitted, and the marker is there once it is due. */
  ghost predicate Inv(cfg: Config, t: Trace)
    requires cfg.Valid()
  {
    && t.state.accumulator == Lowest(cfg.epoch, Sort(t.submitted))
    && t.marker == (if cfg.Phase(t.state.slot) >= cfg.submissionEnd && |t.state.accumulator| == cfg.epoch
                    then Some(OutsideIn(t.state.accumulator)) else None)
  }

  lemma WithinEpoch(cfg: Config, pre: nat, post: nat)
    requires cfg.Valid() && pre < post && !EpochChange(cfg, pre, post)
    ensures cfg.Phase(pre) < cfg.Phase(post)
  {
    assert pre == cfg.epoch * (pre / cfg.epoch) + pre % cfg.epoch;
    assert post == cfg.epoch * (post / cfg.epoch) + post % cfg.epoch;
  }

  lemma AdvanceKeepsInv(cfg: Config, t: Trace, b: Block)
    requires cfg.Valid() && Inv(cfg, t) && Advance(cfg, t, b).Some?
    ensures Inv(cfg, Advance(cfg, t, b).value)
  {
    if EpochChange(cfg, t.state.slot, b.slot) {
      assert Sort([]) == [];
      hide OutsideIn, Sort;
    } else {
      WithinEpoch(cfg, t.state.slot, b.slot);
      LowestOfLowest(cfg.epoch, b.tickets, t.submitted);
      assert [] + t.submitted == t.submitted;
      hide OutsideIn, Sort;
    }
  }

  lemma {:induction false} RunKeepsInv(cfg: Config, series: Series, blocks: seq<Block>)
    requires cfg.Valid() && Run(cfg, series, blocks).Some?
    ensures Inv(cfg, Run(cfg, series, blocks).value)
  {
    if blocks == [] {
      assert Sort([]) == [];
      assert 0 % cfg.epoch == 0;
    } else {
      RunKeepsInv(cfg, series, blocks[..|blocks| - 1]);
      AdvanceKeepsInv(cfg, Run(cfg, series, blocks[..|blocks| - 1]).value, blocks[|blocks| - 1]);
    }
  }

  /** After any run the accumulator holds the lowest ids of all tickets submitted in this epoch. */
  lemma AccumulatorIsLowest(cfg: Config, series: Series, blocks: seq<Block>)
    requires cfg.Valid() && Run(cfg, series, blocks).Some?
    ensures var t := Run(cfg, series, blocks).value;
            && |t.state.accumulator| == (if |t.submitted| <= cfg.epoch then |t.submitted| else cfg.epoch)
            && Ordered(t.state.accumulator)
            && exists cut :: LowestPart(t.state.accumulator, cut, t.submitted)
  {
    hide Run, Sort, Lowest, LowestPart, Ordered;
    RunKeepsInv(cfg, series, blocks);
    LowestAreLowest(cfg.epoch, Run(cfg, series, blocks).value.submitted);
  }

  /**
   When a block enters a new epoch, tickets seal it exactly if no epoch was skipped and a
   marker was emitted in the epoch before; they are then that marker, which has each
   ticket of the accumulator once.
   */
  lemma SealedByMarker(cfg: Config, series: Series, blocks: seq<Block>, b: Block)
    requires cfg.Valid() && Run(cfg, series, blocks + [b]).Some?
    ensures Run(cfg, series, blocks).Some?
    ensures var before, after := Run(cfg, series, blocks).value, Run(cfg, series, blocks + [b]).value;
            EpochChange(cfg, before.state.slot, b.slot) ==>
              && (after.state.series.ByTickets? <==>
                  cfg.EpochOf(b.slot) == cfg.EpochOf(before.state.slot) + 1 && before.marker.Some?)
              && (after.state.series.ByTickets? ==>
                  && before.marker == Some(after.state.series.tickets)
                  && multiset(after.state.series.tickets) == multiset(before.state.accumulator))
  {
    assert (blocks + [b])[..|blocks + [b]| - 1] == blocks;
    RunKeepsInv(cfg, series, blocks);
    var before := Run(cfg, series, blocks).value;
    if EpochChange(cfg, before.state.slot, b.slot) {
      EpochsGrow(cfg, before.state.slot, b.slot);
      if |before.state.accumulator| == cfg.epoch {
        OutsideInPermutes(before.state.accumulator);
      }
    }
  }

  lemma EpochsGrow(cfg: Config, pre: nat, post: nat)
    requires cfg.Valid() && pre < post && EpochChange(cfg, pre, post)
    ensures cfg.EpochOf(pre) < cfg.EpochOf(post)
  {
    var e := cfg.epoch;
    assert pre == e * (pre / e) + pre % e && post == e * (post / e) + post % e;
    if post / e < pre / e {
      assert e * (pre / e) == e * (post / e) + e * (pre / e - post / e);
      Grows(e, pre / e - post / e);
    }
  }

  // ---------------------------------------------------------------- ids that occur twice

  /** What stays in the accumulator when a block comes: nothing in a new epoch. */
  function Earlier(cfg: Config, st: State, b: Block): seq<Ticket>
    requires cfg.Valid()
  {
    if EpochChange(cfg, st.slot, b.slot) then [] else st.accumulator
  }

  /** The block brings neighbours with one id, and both come within the lowest E. */
  predicate KeepsTwins(cfg: Config, st: State, b: Block)
    requires cfg.Valid()
  {
    TwinsKept(cfg.epoch, b.tickets, Earlier(cfg, st, b))
  }

  lemma {:induction false} InOrderIsOrdered(ts: seq<Ticket>)
    requires InOrder(ts)
    ensures Ordered(ts)
  {
    if ts != [] {
      var front := ts[..|ts| - 1];
      InOrderIsOrdered(front);
      forall i, j | 0 <= i < j < |ts|
        ensures ts[i].id <= ts[j].id
      {
        if j == |ts| - 1 {
          assert ts[|ts| - 2].id <= ts[j].id;
          assert front[i].id <= front[|front| - 1].id;
        } else {
          assert front[i].id <= front[j].id;
        }
      }
    }
  }

  /**
   The order check lets equal ids through.  An accepted block leaves an accumulator without
   an id twice exactly if it does not keep twins, given that the earlier one had none.
   */
  lemma DistinctNextExactly(cfg: Config, st: State, b: Block)
    requires cfg.Valid() && Step(cfg, st, b).Some? && DistinctIds(Earlier(cfg, st, b))
    ensures DistinctIds(Step(cfg, st, b).value.0.accumulator) <==> !KeepsTwins(cfg, st, b)
  {
    var others := Earlier(cfg, st, b);
    InOrderIsOrdered(b.tickets);
    assert b.tickets + [] == b.tickets;
    hide Sort, Lowest, OutsideIn, TwinsKept, Ordered, InOrder, DistinctIds;
    LowestDistinctExactly(cfg.epoch, b.tickets, others);
  }

  /** Whether no id stands twice in the accumulator after the first `n` blocks. */
  predicate DistinctAfter(cfg: Config, series: Series, blocks: seq<Block>, n: nat)
    requires cfg.Valid() && n <= |blocks|
  {
    var t := Run(cfg, series, blocks[..n]);
    t.Some? ==> DistinctIds(t.value.state.accumulator)
  }

  predicate TwinsAt(cfg: Config, series: Series, blocks: seq<Block>, n: nat)
    requires cfg.Valid() && n < |blocks|
  {
    var t := Run(cfg, series, blocks[..n]);
    t.Some? && KeepsTwins(cfg, t.value.state, blocks[n])
  }

  lemma RunOfPrefix(cfg: Config, series: Series, blocks: seq<Block>, n: nat)
    requires cfg.Valid() && n < |blocks| && Run(cfg, series, blocks[..n + 1]).Some?
    ensures Run(cfg, series, blocks[..n]).Some?
    ensures Run(cfg, series, blocks[..n + 1]) == Advance(cfg, Run(cfg, series, blocks[..n]).value, blocks[n])
  {
    assert blocks[..n + 1][..n] == blocks[..n] && blocks[..n + 1][n] == blocks[n];
  }

  lemma {:induction false} RunToPrefix(cfg: Config, series: Series, blocks: seq<Block>, n: nat)
    requires cfg.Valid() && n <= |blocks| && Run(cfg, series, blocks).Some?
    ensures Run(cfg, series, blocks[..n]).Some?
    decreases |blocks|
  {
    if n == |blocks| {
      assert blocks[..n] == blocks;
    } else {
      assert blocks[..|blocks| - 1][..n] == blocks[..n];
      RunToPrefix(cfg, series, blocks[..|blocks| - 1], n);
    }
  }

  lemma DistinctOneBlock(cfg: Config, series: Series, blocks: seq<Block>, n: nat)
    requires cfg.Valid() && n < |blocks| && Run(cfg, series, blocks).Some?
    requires DistinctAfter(cfg, series, blocks, n)
    ensures DistinctAfter(cfg, series, blocks, n + 1) <==> !TwinsAt(cfg, series, blocks, n)
  {
    RunToPrefix(cfg, series, blocks, n + 1);
    RunOfPrefix(cfg, series, blocks, n);
    hide Run, KeepsTwins, DistinctIds;
    DistinctNextExactly(cfg, Run(cfg, series, blocks[..n]).value.state, blocks[n]);
  }

  lemma DistinctAtFirst(cfg: Config, series: Series, blocks: seq<Block>)
    requires cfg.Valid()
    ensures DistinctAfter(cfg, series, blocks, 0)
  {
    assert blocks[..0] == [];
  }

  lemma {:induction false} DistinctWithoutTwins(cfg: Config, series: Series, blocks: seq<Block>, n: nat)
    requires cfg.Valid() && Run(cfg, series, blocks).Some? && n <= |blocks|
    requires forall m :: 0 <= m < n ==> !TwinsAt(cfg, series, blocks, m)
    ensures DistinctAfter(cfg, series, blocks, n)
  {
    hide *;
    if n == 0 {
      DistinctAtFirst(cfg, series, blocks);
    } else {
      DistinctWithoutTwins(cfg, series, blocks, n - 1);
      DistinctOneBlock(cfg, series, blocks, n - 1);
    }
  }

  /** Over a whole run no id ever stands twice in the accumulator, exactly if no block keeps twins. */
  lemma DistinctRunExactly(cfg: Config, series: Series, blocks: seq<Block>)
    requires cfg.Valid() && Run(cfg, series, blocks).Some?
    ensures (forall n :: 0 <= n <= |blocks| ==> DistinctAfter(cfg, series, blocks, n)) <==>
            (forall n :: 0 <= n < |blocks| ==> !TwinsAt(cfg, series, blocks, n))
  {
    hide DistinctAfter, TwinsAt, Run;
    if forall n :: 0 <= n < |blocks| ==> !TwinsAt(cfg, series, blocks, n) {
      forall n | 0 <= n <= |blocks|
        ensures DistinctAfter(cfg, series, blocks, n)
      {
        DistinctWithoutTwins(cfg, series, blocks, n);
      }
    }
    if forall n :: 0 <= n <= |blocks| ==> DistinctAfter(cfg, series, blocks, n) {
      forall n | 0 <= n < |blocks|
        ensures !TwinsAt(cfg, series, blocks, n)
      {
        DistinctOneBlock(cfg, series, blocks, n);
      }
    }
  }

  predicate Ascending(ts: seq<Ticket>) {
    forall i :: 0 <= i < |ts| - 1 ==> ts[i].id < ts[i + 1].id
  }

  /** If every block of the epoch is strictly ascending, no id stands twice in the accumulator. */
  lemma {:induction false} AscendingIsDistinct(cfg: Config, series: Series, blocks: seq<Block>)
    requires cfg.Valid() && Run(cfg, series, blocks).Some?
    requires var epoch := cfg.EpochOf(Run(cfg, series, blocks).value.state.slot);
             forall b :: b in blocks && cfg.EpochOf(b.slot) == epoch ==> Ascending(b.tickets)
    ensures DistinctIds(Run(cfg, series, blocks).value.state.accumulator)
  {
    if blocks != [] {
      var front, b := blocks[..|blocks| - 1], blocks[|blocks| - 1];
      var before := Run(cfg, series, front).value.state;
      assert b in blocks && Run(cfg, series, blocks).value.state.slot == b.slot;
      if !EpochChange(cfg, before.slot, b.slot) {
        assert forall c :: c in front ==> c in blocks;
        AscendingIsDistinct(cfg, series, front);
      }
      hide DistinctIds, Run;
      DistinctNextExactly(cfg, before, b);
    }
  }

  /** An example: a block that brings one ticket twice, in two envelopes. */
  lemma SameIdTwice(cfg: Config, series: Series, t: Ticket)
    requires cfg.Valid() && cfg.maxTickets >= 2 && cfg.submissionEnd >= 2
    ensures Step(cfg, State(0, [], series), Block(1, [t, t], false, true)).Some?
    ensures Step(cfg, State(0, [], series), Block(1, [t, t], false, true)).value.0.accumulator == [t, t]
  {
    hide Sort, Lowest, NextSeries, Marker;
    FirstSlots(cfg);
    assert [t, t] + [] == [t, t];
    TwoStay(cfg, t);
  }

  lemma FirstSlots(cfg: Config)
    requires cfg.Valid() && cfg.submissionEnd >= 2
    ensures cfg.epoch >= 2 && cfg.Phase(1) == 1 && !EpochChange(cfg, 0, 1)
  {
    assert 1 % cfg.epoch == 1 && 0 % cfg.epoch == 0 && 1 / cfg.epoch == 0 && 0 / cfg.epoch == 0;
  }

  lemma TwoStay(cfg: Config, t: Ticket)
    requires cfg.epoch >= 2
    ensures Lowest(cfg.epoch, Sort([t, t])) == [t, t]
  {
    SortedStays([t, t]);
  }
}
