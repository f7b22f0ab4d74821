/**
 Accumulation in rounds: each round reserves gas for the pending transfers and the
 always-accumulating services, takes as many reports as fit, runs one invocation for each
 service concerned, and hands the transfers they emit to the next round.
 */
module SequentialAccumulation {
  import opened Octets
  import opened Options
  import opened Services
  import opened FiniteSums

  /** What a work report asks of one service. */
  datatype Digest = Digest(service: Id, gas: nat)
  type Report = seq<Digest>

  /** What an invocation leaves: its changes, the transfers it emits, the gas it used and its output, if any. */
  datatype Invoked<C> = Invoked(changes: C, transfers: seq<Transfer>, gasUsed: nat, output: Option<Hash>)

  /**
   The parts of a round that are described elsewhere: `invoke` runs the code of one service,
   and `merge` joins what the services changed, or fails on a conflict.
   */
  datatype Machine<!S, !C> = Machine(
    invoke: (S, Id, seq<Transfer>, seq<Digest>, nat) -> Invoked<C>,
    merge: (S, seq<(Id, Invoked<C>)>) -> Option<S>)

  // ---------------------------------------------------------------- one service

  function GasOf(r: Report): nat {
    if r == [] then 0 else GasOf(r[..|r| - 1]) + r[|r| - 1].gas
  }

  function GasOfAll(rs: seq<Report>): nat {
    if rs == [] then 0 else GasOfAll(rs[..|rs| - 1]) + GasOf(rs[|rs| - 1])
  }

  function TransfersTo(ts: seq<Transfer>, id: Id): seq<Transfer> {
    if ts == [] then []
    else
      var last := ts[|ts| - 1];
      TransfersTo(ts[..|ts| - 1], id) + if last.receiver == id then [last] else []
  }

  function DigestsIn(r: Report, id: Id): seq<Digest> {
    if r == [] then []
    else
      var last := r[|r| - 1];
      DigestsIn(r[..|r| - 1], id) + if last.service == id then [last] else []
  }

  function DigestsFor(rs: seq<Report>, id: Id): seq<Digest> {
    if rs == [] then [] else DigestsFor(rs[..|rs| - 1], id) + DigestsIn(rs[|rs| - 1], id)
  }

  function Allotment(ts: seq<Transfer>, rs: seq<Report>, always: map<Id, nat>, id: Id): nat {
    Lookup(always, id) + ForwardedGas(TransfersTo(ts, id)) + GasOf(DigestsFor(rs, id))
  }

  lemma GasOfConcat(a: Report, b: Report)
    ensures GasOf(a + b) == GasOf(a) + GasOf(b)
  {
    if b == [] {
      assert a + b == a;
    } else {
      var n := |a + b| - 1;
      assert (a + b)[..n] == a + b[..|b| - 1];
      GasOfConcat(a, b[..|b| - 1]);
    }
  }

  function Step<S, C>(m: Machine<S, C>, st: S, ts: seq<Transfer>, rs: seq<Report>, always: map<Id, nat>,
      id: Id): Invoked<C> {
    m.invoke(st, id, TransfersTo(ts, id), DigestsFor(rs, id), Allotment(ts, rs, always, id))
  }

  lemma OneMoreTransfer(ts: seq<Transfer>, n: nat, id: Id)
    requires n < |ts|
    ensures TransfersTo(ts[..n + 1], id) == TransfersTo(ts[..n], id) + if ts[n].receiver == id then [ts[n]] else []
    ensures ForwardedGas(TransfersTo(ts[..n], id) + [ts[n]]) == ForwardedGas(TransfersTo(ts[..n], id)) + ts[n].gas
  {
    assert ts[..n + 1][..n] == ts[..n];
    var before := TransfersTo(ts[..n], id);
    assert (before + [ts[n]])[..|before|] == before;
  }

  lemma OneMoreDigest(before: seq<Digest>, r: Report, k: nat, id: Id)
    requires k < |r|
    ensures DigestsIn(r[..k + 1], id) == DigestsIn(r[..k], id) + if r[k].service == id then [r[k]] else []
    ensures GasOf(before + DigestsIn(r[..k], id) + [r[k]]) == GasOf(before + DigestsIn(r[..k], id)) + r[k].gas
  {
    assert r[..k + 1][..k] == r[..k];
    var front := before + DigestsIn(r[..k], id);
    assert (front + [r[k]])[..|front|] == front;
  }

  lemma OneMoreReport(rs: seq<Report>, n: nat, id: Id)
    requires n < |rs|
    ensures DigestsFor(rs[..n + 1], id) == DigestsFor(rs[..n], id) + DigestsIn(rs[n], id)
    ensures DigestsIn(rs[n][..0], id) == []
  {
    assert rs[..n + 1][..n] == rs[..n];
  }

  lemma NothingGathered(ts: seq<Transfer>, rs: seq<Report>, id: Id)
    ensures TransfersTo(ts[..0], id) == [] && DigestsFor(rs[..0], id) == []
    ensures ForwardedGas([]) == GasOf([]) == 0
  {
  }

  method SingleStep<S, C>(m: Machine<S, C>, st: S, ts: seq<Transfer>, rs: seq<Report>, always: map<Id, nat>, id: Id)
    returns (o: Invoked<C>)
    ensures o == Step(m, st, ts, rs, always, id)
  {
    hide TransfersTo, DigestsFor, DigestsIn, ForwardedGas, GasOf, Lookup;
    NothingGathered(ts, rs, id);
    var g := Lookup(always, id);
    var transfers: seq<Transfer>, digests: seq<Digest> := [], [];
    for n := 0 to |ts|
      invariant transfers == TransfersTo(ts[..n], id)
      invariant g == Lookup(always, id) + ForwardedGas(transfers)
    {
      OneMoreTransfer(ts, n, id);
      if ts[n].receiver == id {
        g := g + ts[n].gas;
        transfers := transfers + [ts[n]];
      }
    }
    assert ts[..|ts|] == ts;
    for n := 0 to |rs|
      invariant digests == DigestsFor(rs[..n], id)
      invariant g == Lookup(always, id) + ForwardedGas(transfers) + GasOf(digests)
    {
      OneMoreReport(rs, n, id);
      ghost var before := digests;
      for k := 0 to |rs[n]|
        invariant digests == before + DigestsIn(rs[n][..k], id)
        invariant g == Lookup(always, id) + ForwardedGas(transfers) + GasOf(digests)
      {
        OneMoreDigest(before, rs[n], k, id);
        if rs[n][k].service == id {
          g := g + rs[n][k].gas;
          digests := digests + [rs[n][k]];
        }
      }
      assert rs[n][..|rs[n]|] == rs[n];
    }
    assert rs[..|rs|] == rs;
    o := m.invoke(st, id, transfers, digests, g);
  }

  // ---------------------------------------------------------------- one round

  function Receivers(ts: seq<Transfer>): set<Id> {
    set t | t in ts :: t.receiver
  }

  function Serviced(rs: seq<Report>): set<Id> {
    set r, d | r in rs && d in r :: d.service
  }

  /** The services of a round, in increasing order. */
  function Concerned(ts: seq<Transfer>, rs: seq<Report>, always: map<Id, nat>): seq<Id> {
    Sorted(Serviced(rs) + always.Keys + Receivers(ts))
  }

  function Outputs<S, C>(m: Machine<S, C>, st: S, ts: seq<Transfer>, rs: seq<Report>, always: map<Id, nat>,
      ids: seq<Id>): (r: seq<(Id, Invoked<C>)>)
    ensures |r| == |ids|
    ensures forall n :: 0 <= n < |ids| ==> r[n] == (ids[n], Step(m, st, ts, rs, always, ids[n]))
  {
    seq(|ids|, n requires 0 <= n < |ids| => (ids[n], Step(m, st, ts, rs, always, ids[n])))
  }

  function Emitted<C>(outputs: seq<(Id, Invoked<C>)>): seq<Transfer> {
    if outputs == [] then [] else Emitted(outputs[..|outputs| - 1]) + outputs[|outputs| - 1].1.transfers
  }

  function Used<C>(outputs: seq<(Id, Invoked<C>)>): map<Id, nat> {
    if outputs == [] then map[]
    else
      var last := outputs[|outputs| - 1];
      Used(outputs[..|outputs| - 1])[last.0 := last.1.gasUsed]
  }

  /** The outputs of the services that gave one. */
  function Committed<C>(outputs: seq<(Id, Invoked<C>)>): set<(Id, Hash)> {
    if outputs == [] then {}
    else
      var last := outputs[|outputs| - 1];
      Committed(outputs[..|outputs| - 1]) + if last.1.output.Some? then {(last.0, last.1.output.value)} else {}
  }

  datatype Round<S> = Round(state: S, transfers: seq<Transfer>, used: map<Id, nat>, commitment: set<(Id, Hash)>)

  function RoundOf<S, C>(m: Machine<S, C>, st: S, ts: seq<Transfer>, rs: seq<Report>,
      always: map<Id, nat>): Option<Round<S>> {
    var outputs := Outputs(m, st, ts, rs, always, Concerned(ts, rs, always));
    match m.merge(st, outputs)
    case None => None
    case Some(merged) => Some(Round(merged, Emitted(outputs), Used(outputs), Committed(outputs)))
  }

  method ParallelAccumulation<S, C>(m: Machine<S, C>, st: S, ts: seq<Transfer>, rs: seq<Report>, always: map<Id, nat>)
    returns (r: Option<Round<S>>)
    ensures r == RoundOf(m, st, ts, rs, always)
  {
    hide Step, Concerned;
    var ids := Concerned(ts, rs, always);
    ghost var all := Outputs(m, st, ts, rs, always, ids);
    var outputs: seq<(Id, Invoked<C>)> := [];
    for n := 0 to |ids|
      invariant outputs == all[..n]
    {
      var o := SingleStep(m, st, ts, rs, always, ids[n]);
      outputs := outputs + [(ids[n], o)];
    }
    assert outputs == all;
    var merged := m.merge(st, outputs);
    if merged.None? {
      return None;
    }
    var used: map<Id, nat>, transfers: seq<Transfer>, commitment: set<(Id, Hash)> := map[], [], {};
    for n := 0 to |outputs|
      invariant used == Used(outputs[..n]) && transfers == Emitted(outputs[..n])
      invariant commitment == Committed(outputs[..n])
    {
      assert outputs[..n + 1][..n] == outputs[..n];
      used := used[outputs[n].0 := outputs[n].1.gasUsed];
      transfers := transfers + outputs[n].1.transfers;
      if outputs[n].1.output.Some? {
        commitment := commitment + {(outputs[n].0, outputs[n].1.output.value)};
      }
    }
    assert outputs[..|outputs|] == outputs;
    r := Some(Round(merged.value, transfers, used, commitment));
  }

  // ---------------------------------------------------------------- the gas of a round

  /** In a good state an invocation uses no more than its allotment, and has paid for every transfer it emits. */
  ghost predicate Metered<S(!new), C(!new)>(m: Machine<S, C>, good: S -> bool) {
    forall st, id, ts, ds, g :: good(st) ==> MeteredBy(m.invoke(st, id, ts, ds, g), g)
  }

  ghost predicate MeteredBy<C>(o: Invoked<C>, g: nat) {
    Charges(o.transfers) <= o.gasUsed <= g
  }

  /** A round from a good state, if it does not fail, leads to a good state. */
  ghost predicate Steady<S(!new), C(!new)>(m: Machine<S, C>, good: S -> bool) {
    forall st, ts, rs, always :: good(st) && RoundOf(m, st, ts, rs, always).Some? ==>
      good(RoundOf(m, st, ts, rs, always).value.state)
  }

  /** What holds of the machine and of the state at the start of every round. */
  ghost predicate Runs<S(!new), C(!new)>(m: Machine<S, C>, good: S -> bool, st: S) {
    Metered(m, good) && Steady(m, good) && good(st)
  }

  /** Every allowance goes to exactly one service. */
  lemma {:induction false} AllotmentsAddUp(ts: seq<Transfer>, rs: seq<Report>, always: map<Id, nat>, ids: seq<Id>)
    requires Distinct(ids)
    requires forall x :: x in Serviced(rs) + always.Keys + Receivers(ts) ==> x in ids
    ensures Total(ids, id => Allotment(ts, rs, always, id)) == ForwardedGas(ts) + GasOfAll(rs) + SumValues(always)
  {
    TransfersAddUp(ts, ids);
    DigestsAddUp(rs, ids);
    SumValuesIsTotal(always, ids);
    TotalPlus(ids, id => ForwardedGas(TransfersTo(ts, id)), id => GasOf(DigestsFor(rs, id)),
              id => ForwardedGas(TransfersTo(ts, id)) + GasOf(DigestsFor(rs, id)));
    TotalPlus(ids, id => Lookup(always, id), id => ForwardedGas(TransfersTo(ts, id)) + GasOf(DigestsFor(rs, id)),
              id => Allotment(ts, rs, always, id));
  }

  lemma {:induction false} TransfersAddUp(ts: seq<Transfer>, ids: seq<Id>)
    requires Distinct(ids) && forall x :: x in Receivers(ts) ==> x in ids
    ensures Total(ids, id => ForwardedGas(TransfersTo(ts, id))) == ForwardedGas(ts)
  {
    var f := id => ForwardedGas(TransfersTo(ts, id));
    if ts == [] {
      TotalZero(ids, f);
    } else {
      var front, last := ts[..|ts| - 1], ts[|ts| - 1];
      assert ts == front + [last];
      TransfersAddUp(front, ids);
      assert forall id :: TransfersTo(ts, id) == TransfersTo(front, id) + if last.receiver == id then [last] else [];
      forall id: Id
        ensures f(id) == ForwardedGas(TransfersTo(front, id)) + if last.receiver == id then last.gas else 0
      {
        ForwardedGasOfConcat(TransfersTo(front, id), if last.receiver == id then [last] else []);
        assert [last][..0] == [];
      }
      assert last.receiver in Receivers(ts);
      TotalBump(ids, id => ForwardedGas(TransfersTo(front, id)), f, last.receiver, last.gas);
    }
  }

  lemma {:induction false} DigestsInAddUp(r: Report, ids: seq<Id>)
    requires Distinct(ids) && forall d :: d in r ==> d.service in ids
    ensures Total(ids, id => GasOf(DigestsIn(r, id))) == GasOf(r)
  {
    var f := id => GasOf(DigestsIn(r, id));
    if r == [] {
      TotalZero(ids, f);
    } else {
      var front, last := r[..|r| - 1], r[|r| - 1];
      assert r == front + [last];
      DigestsInAddUp(front, ids);
      assert forall id :: DigestsIn(r, id) == DigestsIn(front, id) + if last.service == id then [last] else [];
      forall id: Id
        ensures f(id) == GasOf(DigestsIn(front, id)) + if last.service == id then last.gas else 0
      {
        GasOfConcat(DigestsIn(front, id), if last.service == id then [last] else []);
        assert [last][..0] == [];
      }
      TotalBump(ids, id => GasOf(DigestsIn(front, id)), f, last.service, last.gas);
    }
  }

  lemma {:induction false} DigestsAddUp(rs: seq<Report>, ids: seq<Id>)
    requires Distinct(ids) && forall x :: x in Serviced(rs) ==> x in ids
    ensures Total(ids, id => GasOf(DigestsFor(rs, id))) == GasOfAll(rs)
  {
    var f := id => GasOf(DigestsFor(rs, id));
    if rs == [] {
      TotalZero(ids, f);
    } else {
      var front, last := rs[..|rs| - 1], rs[|rs| - 1];
      assert rs == front + [last];
      DigestsAddUp(front, ids);
      forall d | d in last
        ensures d.service in ids
      {
        assert last in rs && d.service in Serviced(rs);
      }
      DigestsInAddUp(last, ids);
      forall id: Id
        ensures f(id) == GasOf(DigestsFor(front, id)) + GasOf(DigestsIn(last, id))
      {
        GasOfConcat(DigestsFor(front, id), DigestsIn(last, id));
      }
      TotalPlus(ids, id => GasOf(DigestsFor(front, id)), id => GasOf(DigestsIn(last, id)), f);
    }
  }

  lemma NothingUsed()
    ensures ForwardedGas([]) == SumValues(map[]) == 0
  {
  }

  /** The map of gas used has one entry for each invocation. */
  lemma {:induction false} UsedSums<C>(outputs: seq<(Id, Invoked<C>)>, ids: seq<Id>, g: Id -> nat)
    requires |ids| == |outputs| && Distinct(ids)
    requires forall n :: 0 <= n < |ids| ==> outputs[n].0 == ids[n] && MeteredBy(outputs[n].1, g(ids[n]))
    ensures Used(outputs).Keys == set id | id in ids
    ensures SumValues(Used(outputs)) <= Total(ids, g)
    ensures Charges(Emitted(outputs)) <= SumValues(Used(outputs))
  {
    hide SumValues, ForwardedGas;
    if outputs == [] {
      NothingUsed();
    } else {
      var n := |ids| - 1;
      var front, rest, last := outputs[..n], ids[..n], outputs[n];
      UsedSums(front, rest, g);
      assert ids == rest + [ids[n]];
      var before, after := Used(front), Used(outputs);
      assert ids[n] !in before;
      SumOfFresh(before, ids[n], last.1.gasUsed);
      ForwardedGasOfConcat(Emitted(front), last.1.transfers);
    }
  }

  /** A round uses at most what it reserved, and at least what its transfers forward. */
  lemma RoundIsMetered<S(!new), C(!new)>(m: Machine<S, C>, good: S -> bool, st: S, ts: seq<Transfer>, rs: seq<Report>,
      always: map<Id, nat>)
    requires Metered(m, good) && good(st) && RoundOf(m, st, ts, rs, always).Some?
    ensures var r := RoundOf(m, st, ts, rs, always).value;
            Charges(r.transfers) <= SumValues(r.used) <= ForwardedGas(ts) + GasOfAll(rs) + SumValues(always)
  {
    var ids := Concerned(ts, rs, always);
    AllotmentsAddUp(ts, rs, always, ids);
    UsedSums(Outputs(m, st, ts, rs, always, ids), ids, id => Allotment(ts, rs, always, id));
  }

  // ---------------------------------------------------------------- all rounds

  /** How many reports fit, after the reservations. */
  function Fitting(reserved: nat, limit: nat, rs: seq<Report>, from: nat): (i: nat)
    requires from <= |rs|
    ensures from <= i <= |rs|
    ensures i < |rs| ==> reserved + GasOfAll(rs[..i + 1]) - GasOfAll(rs[..from]) > limit
    ensures from < i ==> reserved + GasOfAll(rs[..i]) - GasOfAll(rs[..from]) <= limit
    decreases |rs| - from
  {
    if from == |rs| then from
    else
      assert rs[..from + 1][..from] == rs[..from];
      if reserved + GasOf(rs[from]) > limit then from
      else Fitting(reserved + GasOf(rs[from]), limit, rs, from + 1)
  }

  method CountFitting(reserved: nat, limit: nat, rs: seq<Report>) returns (i: nat)
    ensures i == Fitting(reserved, limit, rs, 0)
  {
    var total: nat := reserved;
    i := 0;
    while i < |rs|
      invariant i <= |rs| && total >= 0
      invariant Fitting(reserved, limit, rs, 0) == Fitting(total, limit, rs, i)
    {
      total := total + GasOf(rs[i]);
      i := i + 1;
      if total > limit {
        i := i - 1;
        break;
      }
    }
  }

  datatype Outcome<S> = Outcome(
    accumulated: nat,
    state: S,
    used: map<Id, nat>,
    processed: seq<Transfer>,
    commitment: set<(Id, Hash)>)

  predicate Reserved(limit: nat, ts: seq<Transfer>, always: map<Id, nat>) {
    ForwardedGas(ts) + SumValues(always) <= limit
  }

  /** What the next round may spend: what is left, plus what was set aside for its transfers. */
  function NextLimit<S(!new), C(!new)>(m: Machine<S, C>, ghost good: S -> bool, limit: nat, st: S, ts: seq<Transfer>,
      rs: seq<Report>, always: map<Id, nat>, i: nat): (next: nat)
    requires Runs(m, good, st) && Reserved(limit, ts, always)
    requires i == Fitting(ForwardedGas(ts) + SumValues(always), limit, rs, 0)
    requires RoundOf(m, st, ts, rs[..i], always).Some?
    ensures var r := RoundOf(m, st, ts, rs[..i], always).value;
            Reserved(next, r.transfers, map[]) && next + TRANSFER_COST * |r.transfers| <= limit
    ensures RoundOf(m, st, ts, rs[..i], always).value.transfers == [] || next < limit
    ensures Runs(m, good, RoundOf(m, st, ts, rs[..i], always).value.state)
  {
    RoundIsMetered(m, good, st, ts, rs[..i], always);
    assert GasOfAll(rs[..0]) == 0;
    var r := RoundOf(m, st, ts, rs[..i], always).value;
    limit + ForwardedGas(r.transfers) - SumValues(r.used)
  }

  lemma RestIsSmaller(limit: nat, ts: seq<Transfer>, rs: seq<Report>, always: map<Id, nat>, i: nat, next: nat,
      emitted: seq<Transfer>)
    requires i <= |rs| && |ts| + i + |always| > 0
    requires next <= limit && (emitted == [] || next < limit)
    ensures (|rs|, limit, |ts| + |always| decreases to |rs[i..]|, next, |emitted|)
  {
  }

  /** What a round adds to the outcome of those after it. */
  function Extended<S>(i: nat, r: Round<S>, ts: seq<Transfer>, o: Outcome<S>): Outcome<S> {
    Outcome(i + o.accumulated, o.state, AddMaps(r.used, o.used), ts + o.processed, r.commitment + o.commitment)
  }

  /** Round after round, until nothing is left to do or nothing more fits. */
  function Accumulate<S(!new), C(!new)>(m: Machine<S, C>, ghost good: S -> bool, limit: nat, ts: seq<Transfer>,
      rs: seq<Report>, st: S, always: map<Id, nat>): Option<Outcome<S>>
    requires Runs(m, good, st) && Reserved(limit, ts, always)
    decreases |rs|, limit, |ts| + |always|
  {
    hide RoundOf, Metered, Steady, Runs, Fitting, NextLimit, SumValues, ForwardedGas, AddMaps, Reserved;
    var i := Fitting(ForwardedGas(ts) + SumValues(always), limit, rs, 0);
    if |ts| + i + |always| == 0 then Some(Outcome(0, st, map[], [], {}))
    else
      match RoundOf(m, st, ts, rs[..i], always)
      case None => None
      case Some(r) =>
        var next := NextLimit(m, good, limit, st, ts, rs, always, i);
        RestIsSmaller(limit, ts, rs, always, i, next, r.transfers);
        match Accumulate(m, good, next, r.transfers, rs[i..], r.state, map[])
        case None => None
        case Some(o) => Some(Extended(i, r, ts, o))
  }

  method FullSequentialAccumulation<S(!new), C(!new)>(m: Machine<S, C>, ghost good: S -> bool, limit: nat,
      ts: seq<Transfer>, rs: seq<Report>, st: S, always: map<Id, nat>)
    returns (o: Option<Outcome<S>>)
    requires Runs(m, good, st) && Reserved(limit, ts, always)
    ensures o == Accumulate(m, good, limit, ts, rs, st, always)
    decreases |rs|, limit, |ts| + |always|
  {
    hide RoundOf, Metered, Steady, Runs, Fitting, NextLimit, SumValues, ForwardedGas, AddMaps, Reserved, Extended,
      GasOf, GasOfAll, Bounded;
    var i := CountFitting(ForwardedGas(ts) + SumValues(always), limit, rs);
    if |ts| + i + |always| == 0 {
      return Some(Outcome(0, st, map[], [], {}));
    }
    var r := ParallelAccumulation(m, st, ts, rs[..i], always);
    if r.None? {
      return None;
    }
    var next := NextLimit(m, good, limit, st, ts, rs, always, i);
    RestIsSmaller(limit, ts, rs, always, i, next, r.value.transfers);
    var rest := FullSequentialAccumulation(m, good, next, r.value.transfers, rs[i..], r.value.state, map[]);
    if rest.None? {
      return None;
    }
    o := Some(Extended(i, r.value, ts, rest.value));
  }

  /** What remains of the gas: the limit, plus what was forwarded on the way, minus what was used. */
  function Remaining<S>(limit: nat, ts: seq<Transfer>, o: Outcome<S>): int {
    limit + (ForwardedGas(o.processed) - ForwardedGas(ts)) - SumValues(o.used)
  }

  /**
   Over all rounds: the gas used minus the gas forwarded never exceeds the limit, every
   further transfer has been paid for, the given transfers are processed first, and
   accumulation only stops short of a report that does not fit in what is left.
   */
  ghost predicate Bounded<S>(limit: nat, ts: seq<Transfer>, rs: seq<Report>, o: Outcome<S>) {
    && 0 <= Remaining(limit, ts, o)
    && ts <= o.processed
    && Charges(o.processed) <= SumValues(o.used) + Charges(ts)
    && o.accumulated <= |rs|
    && (o.accumulated < |rs| ==> GasOf(rs[o.accumulated]) > Remaining(limit, ts, o))
  }

  lemma NothingFits<S>(limit: nat, ts: seq<Transfer>, rs: seq<Report>, st: S, always: map<Id, nat>)
    requires |ts| + |always| == 0 && Fitting(ForwardedGas(ts) + SumValues(always), limit, rs, 0) == 0
    ensures Bounded(limit, ts, rs, Outcome(0, st, map[], [], {}))
  {
    if |rs| > 0 {
      assert rs[..1][..0] == [] && rs[..0] == [];
    }
  }

  lemma OneMoreRound<S>(limit: nat, ts: seq<Transfer>, rs: seq<Report>, i: nat, r: Round<S>, next: nat,
      rest: Outcome<S>)
    requires i <= |rs| && next == limit + ForwardedGas(r.transfers) - SumValues(r.used)
    requires Charges(r.transfers) <= SumValues(r.used)
    requires Bounded(next, r.transfers, rs[i..], rest)
    ensures Bounded(limit, ts, rs, Extended(i, r, ts, rest)) && Extended(i, r, ts, rest).state == rest.state
  {
    hide SumValues, ForwardedGas, AddMaps, GasOf;
    SumOfAddMaps(r.used, rest.used);
    ForwardedGasOfConcat(ts, rest.processed);
  }

  lemma RunsWell<S(!new), C(!new)>(m: Machine<S, C>, good: S -> bool, st: S)
    requires Runs(m, good, st)
    ensures Metered(m, good) && good(st)
  {
  }

  /** The rounds end; whatever the services do, the gas is bounded and the state stays good. */
  lemma {:induction false} GasIsBounded<S(!new), C(!new)>(m: Machine<S, C>, good: S -> bool, limit: nat,
      ts: seq<Transfer>, rs: seq<Report>, st: S, always: map<Id, nat>)
    requires Runs(m, good, st) && Reserved(limit, ts, always)
    requires Accumulate(m, good, limit, ts, rs, st, always).Some?
    ensures Bounded(limit, ts, rs, Accumulate(m, good, limit, ts, rs, st, always).value)
    ensures good(Accumulate(m, good, limit, ts, rs, st, always).value.state)
    decreases |rs|, limit, |ts| + |always|
  {
    hide RoundOf, Metered, Steady, Runs, Fitting, SumValues, ForwardedGas, AddMaps, Reserved, Extended,
      GasOf, GasOfAll, Bounded;
    RunsWell(m, good, st);
    var i := Fitting(ForwardedGas(ts) + SumValues(always), limit, rs, 0);
    if |ts| + i + |always| == 0 {
      NothingFits(limit, ts, rs, st, always);
    } else {
      var r := RoundOf(m, st, ts, rs[..i], always).value;
      var next := NextLimit(m, good, limit, st, ts, rs, always, i);
      RestIsSmaller(limit, ts, rs, always, i, next, r.transfers);
      GasIsBounded(m, good, next, r.transfers, rs[i..], r.state, map[]);
      RoundIsMetered(m, good, st, ts, rs[..i], always);
      OneMoreRound(limit, ts, rs, i, r, next, Accumulate(m, good, next, r.transfers, rs[i..], r.state, map[]).value);
    }
  }

  // ---------------------------------------------------------------- a block

  /** The gas of a block: the total, or every core's share plus the always-accumulating services. */
  function GasLimit(total: nat, perCore: nat, cores: nat, always: map<Id, nat>): nat {
    var shares := perCore * cores + SumValues(always);
    if total >= shares then total else shares
  }

  /** In a block, only so many transfers can ever be processed, and only so much gas used net of them. */
  lemma BlockIsBounded<S(!new), C(!new)>(m: Machine<S, C>, good: S -> bool, total: nat, perCore: nat, cores: nat,
      rs: seq<Report>, st: S, always: map<Id, nat>)
    requires Runs(m, good, st)
    ensures var limit := GasLimit(total, perCore, cores, always);
            && Reserved(limit, [], always)
            && var r := Accumulate(m, good, limit, [], rs, st, always);
               r.Some? ==>
                 && SumValues(r.value.used) - ForwardedGas(r.value.processed) <= limit
                 && TRANSFER_COST * |r.value.processed| <= limit
  {
    var limit := GasLimit(total, perCore, cores, always);
    if Accumulate(m, good, limit, [], rs, st, always).Some? {
      GasIsBounded(m, good, limit, [], rs, st, always);
    }
  }
}
